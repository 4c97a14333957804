/** A workflow of one task with two error tasks: the task fails, is resumed and fails again. */
module ErrorRuns {
  import opened Rows
  import opened Canvas
  import opened Ordering
  import opened Executor
  import opened Attempts
  import opened History
  import opened Repeats
  import opened Specs

  const ROOT := Node(0, 0, 0, false, [])
  const LINKS: OnError := map[0 := {0, 1}]

  /** The rows: two error tasks, stored as done, and the task with its status and task id. */
  function Sample(work: Work, e: Work, s: State, id: Uuid, second: State): seq<Task> {
    [Task(Some(0), e, 0, 1, SUCCESS, 0, 100, None), Task(Some(0), e, 1, 2, second, 1, 100, None),
     Task(Some(0), work, 0, 3, s, id, 0, None)]
  }

  lemma {:induction false} SampleCreated(work: Work, e: Work)
    ensures CreateWorkflow([TaskEntry(true, work, [])], [e, e], Db(0, [], 0, 0))
            == Workflow(ROOT, Db(1, Sample(work, e, PENDING, 2, SUCCESS), 4, 3))
    ensures WorkflowErrors([TaskEntry(true, work, [])], [e, e], Db(0, [], 0, 0)) == LINKS
  {
    var started := Db(1, [], 1, 0);
    var flow := [TaskEntry(true, work, [])];
    assert [e, e][..1] == [e] && [e][..0] == [] && flow[..0] == [];
    var one := AddTask(0, e, 0, SUCCESS, 100, started);
    assert AddErrors([e], 0, SUCCESS, started) == one;
    var two := AddTask(0, e, 1, SUCCESS, 100, one);
    assert AddErrors([e, e], 0, SUCCESS, started) == two;
    var three := AddTask(0, work, 0, PENDING, 0, two);
    assert CreateEntry(flow[0], 0, 0, two) == Built([], three);
    assert CreateFlow([], 0, two) == Built([], two);
    assert CreateFlow(flow, 0, two) == Built([], three);
    assert FlowErrors(flow, 0, two) == map[];
    assert NewRows(two.tasks, 0, 0) == {0, 1};
  }

  /** The canvas of a dispatch can start the one pending task. */
  lemma {:induction false} OnlyOne(work: Work, e: Work, id: Uuid, c: Canvas)
    requires var tasks := Sample(work, e, PENDING, id, SUCCESS);
             c == Plan(ROOT, tasks) || c == RunPlan(ROOT, tasks)
    ensures var x := SigOf(Sample(work, e, PENDING, id, SUCCESS), 2);
            Ready(c, map[], x) && forall y :: y in Leaves(c) ==> y == x
  {
    var tasks := Sample(work, e, PENDING, id, SUCCESS);
    var x := SigOf(tasks, 2);
    PlanCurrent(ROOT, tasks);
    assert SignsPending(ROOT, tasks, x);
    var y := ReadyBefore(c, map[], x);
    ReadyIsLeaf(c, map[], y);
    assert SignsPending(ROOT, tasks, y);
  }

  /** `x` starts and fails, and the error task `e` begins. */
  lemma {:induction false} FailAndCall(t: Tree, h: seq<Sys>, acts: seq<Act>, f: nat, x: Sig, e: Sig)
    returns (h': seq<Sys>, acts': seq<Act>)
    requires Path(t, h, acts) && f < |h[|acts|].flights| && CanStart(h[|acts|].flights[f], x)
    requires e in Linked(h[|acts|].onError, h[|acts|].flights[f], x)
    ensures Continues(t, h, acts, h', acts') && acts' == acts + [Start(f, x), Finish(f, x, false), StartError(e)]
    ensures h'[|acts'|] == After(After(After(h[|acts|], Start(f, x)), Finish(f, x, false)), StartError(e))
    ensures h'[|acts| + 2] == After(After(h[|acts|], Start(f, x)), Finish(f, x, false))
  {
    var s := h[|acts|];
    ReadyIsLeaf(s.flights[f].canvas, s.flights[f].done, x);
    var h1, acts1 := GoOn(t, h, acts, Start(f, x));
    var h2, acts2 := GoOn(t, h1, acts1, Finish(f, x, false));
    assert Linked(h1[|acts1|].onError, h1[|acts1|].flights[f], x) == Linked(s.onError, s.flights[f], x);
    h', acts' := GoOn(t, h2, acts2, StartError(e));
    ContinuesThen(t, h, acts, h1, acts1, h2, acts2);
    ContinuesThen(t, h, acts, h2, acts2, h', acts');
  }

  lemma {:induction false} SampleReports(work: Work, e: Work, s: State, id: Uuid, second: State)
    requires id >= 2
    ensures Report(Sample(work, e, s, id, second), id, STARTED) == Sample(work, e, STARTED, id, second)
    ensures Report(Sample(work, e, s, id, second), id, FAILURE) == Sample(work, e, FAILURE, id, second)
    ensures Report(Sample(work, e, s, id, second), 1, STARTED) == Sample(work, e, s, id, STARTED)
    ensures Report(Sample(work, e, s, id, second), 1, SUCCESS) == Sample(work, e, s, id, SUCCESS)
  {
  }

  /** The error task of the second position, as every dispatch signs it. */
  function Second(e: Work): Sig { Sig(1, 1, Some(0), e) }

  function Only(work: Work, id: Uuid): Sig { Sig(2, id, Some(0), work) }

  /** The state after the dispatch that comes before the attempt with task id `id`. */
  ghost predicate Handed(s: Sys, work: Work, e: Work, id: Uuid) {
    && s.flights != [] && s.onError == LINKS && id >= 2
    && var tasks, c := Sample(work, e, PENDING, id, SUCCESS), s.flights[|s.flights| - 1].canvas;
       && s.tasks == tasks && (c == Plan(ROOT, tasks) || c == RunPlan(ROOT, tasks))
       && s.flights[|s.flights| - 1] == Flight(0, Sigs(tasks), c, {}, map[])
  }

  /** One attempt: the task fails and the error task begins. */
  lemma {:induction false} Attempt(h: seq<Sys>, acts: seq<Act>, work: Work, e: Work, id: Uuid)
    returns (h': seq<Sys>, acts': seq<Act>)
    requires Path(ROOT, h, acts) && Handed(h[|acts|], work, e, id)
    ensures Continues(ROOT, h, acts, h', acts') && |acts'| == |acts| + 3
    ensures h'[|acts| + 2].tasks == Sample(work, e, FAILURE, id, SUCCESS)
    ensures h'[|acts'|].tasks == Sample(work, e, FAILURE, id, STARTED)
    ensures h'[|acts| + 2].log == h[|acts|].log + [Began(2), Ended(2, false)]
    ensures h'[|acts'|].log == h'[|acts| + 2].log + [Began(1)]
    ensures h'[|acts'|].next == h[|acts|].next && h'[|acts'|].onError == LINKS && Second(e) in h'[|acts'|].handling
    ensures |h'[|acts'|].flights| == |h[|acts|].flights|
    ensures forall f :: 0 <= f < |h[|acts|].flights| - 1 ==> h'[|acts'|].flights[f] == h[|acts|].flights[f]
    ensures var fl := h'[|acts'|].flights[|h[|acts|].flights| - 1];
            forall y :: y in Leaves(fl.canvas) ==> y.taskId in fl.started
  {
    var s := h[|acts|];
    var f := |s.flights| - 1;
    OnlyOne(work, e, id, s.flights[f].canvas);
    SecondLinked(s, work, e, id);
    h', acts' := FailAndCall(ROOT, h, acts, f, Only(work, id), Second(e));
    ThreeActs(s, h'[|acts| + 2], h'[|acts'|], f, work, e, id);
  }

  lemma {:induction false} SecondLinked(s: Sys, work: Work, e: Work, id: Uuid)
    requires Handed(s, work, e, id)
    ensures SigOf(Sample(work, e, PENDING, id, SUCCESS), 2) == Only(work, id)
    ensures Second(e) in Linked(s.onError, s.flights[|s.flights| - 1], Only(work, id))
  {
    var tasks := Sample(work, e, PENDING, id, SUCCESS);
    assert Sigs(tasks)[1] == Second(e) && 1 in ErrorsOf(s.onError, Some(0));
  }

  /** What the three acts of an attempt do. */
  lemma {:induction false} ThreeActs(s: Sys, a: Sys, b: Sys, f: nat, work: Work, e: Work, id: Uuid)
    requires Handed(s, work, e, id) && f == |s.flights| - 1
    requires a == After(After(s, Start(f, Only(work, id))), Finish(f, Only(work, id), false))
    requires b == After(a, StartError(Second(e)))
    ensures a.tasks == Sample(work, e, FAILURE, id, SUCCESS) && b.tasks == Sample(work, e, FAILURE, id, STARTED)
    ensures a.log == s.log + [Began(2), Ended(2, false)] && b.log == a.log + [Began(1)]
    ensures b.next == s.next && b.onError == LINKS && Second(e) in b.handling && |b.flights| == |s.flights|
    ensures forall g :: 0 <= g < f ==> b.flights[g] == s.flights[g]
    ensures b.flights[f].canvas == s.flights[f].canvas && id in b.flights[f].started
  {
    SampleReports(work, e, PENDING, id, SUCCESS);
    SampleReports(work, e, STARTED, id, SUCCESS);
    SampleReports(work, e, FAILURE, id, SUCCESS);
  }

  /** The second error task ends well. */
  lemma {:induction false} Recover(h: seq<Sys>, acts: seq<Act>, work: Work, e: Work, id: Uuid)
    returns (h': seq<Sys>, acts': seq<Act>)
    requires Path(ROOT, h, acts) && id >= 2 && Second(e) in h[|acts|].handling
    requires h[|acts|].tasks == Sample(work, e, FAILURE, id, STARTED)
    ensures Continues(ROOT, h, acts, h', acts') && |acts'| == |acts| + 1
    ensures h'[|acts'|].tasks == Sample(work, e, FAILURE, id, SUCCESS)
    ensures h'[|acts'|].log == h[|acts|].log + [Ended(1, true)]
    ensures h'[|acts'|].flights == h[|acts|].flights && h'[|acts'|].next == h[|acts|].next
    ensures h'[|acts'|].onError == h[|acts|].onError
  {
    SampleReports(work, e, FAILURE, id, STARTED);
    h', acts' := GoOn(ROOT, h, acts, FinishError(Second(e), true));
  }

  /** The workflow is resumed: the task gets a new id. */
  lemma {:induction false} ResumeIt(h: seq<Sys>, acts: seq<Act>, work: Work, e: Work)
    returns (h': seq<Sys>, acts': seq<Act>)
    requires Path(ROOT, h, acts) && h[|acts|].tasks == Sample(work, e, FAILURE, 2, SUCCESS)
    requires h[|acts|].next == 3 && h[|acts|].onError == LINKS
    ensures Path(ROOT, h', acts') && acts' == acts + [Resume(ROOT)] && h <= h' && Handed(h'[|acts'|], work, e, 3)
    ensures h'[|acts'|].log == h[|acts|].log
  {
    var s := h[|acts|];
    var tasks := Sample(work, e, PENDING, 3, SUCCESS);
    var s' := s.(tasks := tasks, next := 4,
                 flights := s.flights + [Flight(0, Sigs(tasks), Plan(ROOT, tasks), {}, map[])]);
    SampleReset(work, e);
    ResumeAlone(ROOT, s, tasks, 4);
    h', acts' := PathMore(ROOT, h, acts, Resume(ROOT), s');
  }

  lemma {:induction false} SampleReset(work: Work, e: Work)
    ensures ResetIn({0}, 3, Sample(work, e, FAILURE, 2, SUCCESS), Sample(work, e, PENDING, 3, SUCCESS))
    ensures UniqueIds(Sample(work, e, PENDING, 3, SUCCESS), 4)
  {
  }

  lemma {:induction false} ResumeAlone(t: Tree, s: Sys, tasks: seq<Task>, next: Uuid)
    requires t.steps == [] && ResetIn({t.id}, s.next, s.tasks, tasks) && s.next <= next && UniqueIds(tasks, next)
    ensures Step(t, s, Resume(t), s.(tasks := tasks, next := next,
                 flights := s.flights + [Flight(t.id, Sigs(tasks), Plan(t, tasks), {}, map[])]))
  {
    assert Ids(t) == {t.id};
  }

  /** The created workflow is run. */
  lemma {:induction false} RunIt(work: Work, e: Work) returns (h: seq<Sys>, acts: seq<Act>)
    ensures Behaviour(ROOT, h, acts) && h[0] == Fresh(Sample(work, e, PENDING, 2, SUCCESS), 3, LINKS)
    ensures acts == [Run(ROOT)] && Handed(h[1], work, e, 2) && h[1].log == [] && h[1].next == 3 && |h[1].flights| == 1
  {
    var tasks := Sample(work, e, PENDING, 2, SUCCESS);
    var s := Fresh(tasks, 3, LINKS);
    var s' := s.(flights := [Flight(0, Sigs(tasks), RunPlan(ROOT, tasks), {}, map[])]);
    RunAlone(ROOT, s);
    assert s.flights + s'.flights == s'.flights;
    h, acts := PathMore(ROOT, [s], [], Run(ROOT), s');
  }

  /** The tree puts the task before the second error task. */
  lemma {:induction false} SecondComesLater(work: Work, e: Work)
    ensures var tasks := Sample(work, e, PENDING, 2, SUCCESS);
            InTree(tasks[2], ROOT) && InTree(tasks[1], ROOT) && HappensBefore(ROOT, tasks, 2, 1)
  {
  }

  lemma {:induction false} FirstAttempt(work: Work, e: Work) returns (h: seq<Sys>, acts: seq<Act>)
    ensures Behaviour(ROOT, h, acts) && h[0] == Fresh(Sample(work, e, PENDING, 2, SUCCESS), 3, LINKS)
    ensures |acts| == 5 && acts[0] == Run(ROOT) && forall k :: 1 <= k < 5 ==> !Dispatches(acts[k])
    ensures h[5].log == [Began(2), Ended(2, false), Began(1), Ended(1, true)] && BeginsAgain(h[3], h[4], 1)
    ensures h[5].tasks == Sample(work, e, FAILURE, 2, SUCCESS) && h[5].next == 3 && h[5].onError == LINKS
    ensures |h[5].flights| == 1
    ensures forall y :: y in Leaves(h[5].flights[0].canvas) ==> y.taskId in h[5].flights[0].started
  {
    var h1, acts1 := RunIt(work, e);
    var h4, acts4 := Attempt(h1, acts1, work, e, 2);
    h, acts := Recover(h4, acts4, work, e, 2);
    assert h[3] == h4[3] && h[4] == h4[4];
  }

  lemma {:induction false} SecondAttempt(h: seq<Sys>, acts: seq<Act>, work: Work, e: Work)
    returns (h': seq<Sys>, acts': seq<Act>)
    requires Path(ROOT, h, acts) && h[|acts|].tasks == Sample(work, e, FAILURE, 2, SUCCESS)
    requires h[|acts|].next == 3 && h[|acts|].onError == LINKS
    ensures Path(ROOT, h', acts') && h <= h' && acts + [Resume(ROOT)] <= acts' && |acts'| == |acts| + 4
    ensures forall k :: |acts| < k < |acts'| ==> !Dispatches(acts'[k])
    ensures h'[|acts'|].log == h[|acts|].log + [Began(2), Ended(2, false), Began(1)]
    ensures BeginsAgain(h'[|acts| + 3], h'[|acts'|], 1)
  {
    var h1, acts1 := ResumeIt(h, acts, work, e);
    h', acts' := Attempt(h1, acts1, work, e, 3);
  }

  lemma {:induction false} QuietThroughout(h: seq<Sys>, acts: seq<Act>)
    requires |acts| == 9 && |h| == 10 && h[0].flights == [] && |h[5].flights| == 1
    requires forall y :: y in Leaves(h[5].flights[0].canvas) ==> y.taskId in h[5].flights[0].started
    requires forall k :: 0 < k < 9 && k != 5 ==> !Dispatches(acts[k])
    ensures AllQuiet(h, acts)
  {
  }

  /** All dispatches are quiet, yet the second error task begins while its row says SUCCESS,
      and before the task that stands before it has succeeded; it ends well, and begins again. */
  lemma {:induction false} FailingRun(work: Work, e: Work) returns (h: seq<Sys>, acts: seq<Act>)
    ensures Behaviour(ROOT, h, acts) && AllQuiet(h, acts) && |acts| == 9
    ensures h[0] == Fresh(Sample(work, e, PENDING, 2, SUCCESS), 3, LINKS)
    ensures h[9].log == [Began(2), Ended(2, false), Began(1), Ended(1, true), Began(2), Ended(2, false), Began(1)]
    ensures BeginsAgain(h[3], h[4], 1) && BeginsAgain(h[8], h[9], 1)
  {
    var h5, acts5 := FirstAttempt(work, e);
    h, acts := SecondAttempt(h5, acts5, work, e);
    Joined(h5, acts5, h, acts);
    QuietThroughout(h, acts);
  }

  lemma {:induction false} Joined(h: seq<Sys>, acts: seq<Act>, h': seq<Sys>, acts': seq<Act>)
    requires |h| == 6 && |acts| == 5 && |h'| == 10 && h <= h' && acts <= acts'
    ensures h'[0] == h[0] && h'[3] == h[3] && h'[4] == h[4] && h'[5] == h[5]
    ensures forall k :: 0 <= k < 5 ==> acts'[k] == acts[k]
  {
  }
}

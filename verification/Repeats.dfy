/** The converse: a dispatch that is not quiet can make a task that has succeeded, and is
    no error task, begin again. */
module Repeats {
  import opened Rows
  import opened Canvas
  import opened Executor
  import opened Attempts
  import opened History

  /******* Letting the executor work *******/

  /** The history goes on without another dispatch. */
  ghost predicate Continues(t: Tree, h: seq<Sys>, acts: seq<Act>, h': seq<Sys>, acts': seq<Act>) {
    && Path(t, h, acts) && Path(t, h', acts') && h <= h' && acts <= acts'
    && forall k :: |acts| <= k < |acts'| ==> !Dispatches(acts'[k])
  }

  /** It goes on like that from state `n`. */
  ghost predicate ContinuesFrom(t: Tree, h: seq<Sys>, acts: seq<Act>, n: nat, h': seq<Sys>, acts': seq<Act>) {
    n <= |acts| && |h| == |acts| + 1 && Continues(t, h[..n + 1], acts[..n], h', acts')
  }

  /** Only canvas `f` works on, without touching `x`: other canvases stay, and so do
      rows with none of its other task ids. */
  ghost predicate Frame(s: Sys, s': Sys, f: nat, x: Sig) {
    && f < |s.flights| == |s'.flights| && s'.next == s.next && |s'.tasks| == |s.tasks| && s.log <= s'.log
    && s'.onError == s.onError && s'.called == s.called && s'.handling == s.handling
    && (forall g :: 0 <= g < |s.flights| && g != f ==> s'.flights[g] == s.flights[g])
    && s'.flights[f].canvas == s.flights[f].canvas
    && s'.flights[f].at == s.flights[f].at && s'.flights[f].sigs == s.flights[f].sigs
    && (forall i: nat | i < |s.tasks| ::
          && s'.tasks[i].celeryId == s.tasks[i].celeryId
          && (s'.tasks[i] == s.tasks[i]
              || exists z :: z in Leaves(s.flights[f].canvas) && z != x && z.taskId == s.tasks[i].celeryId))
    && (forall k :: |s.log| <= k < |s'.log| ==> Touches(s.flights[f].canvas, s'.log[k].task))
  }

  /** The canvas holds a signature of task `i`. */
  ghost predicate Touches(c: Canvas, i: TaskId) { exists z :: z in Leaves(c) && z.task == i }

  lemma {:induction false} FrameThen(s: Sys, u: Sys, v: Sys, f: nat, x: Sig)
    requires Frame(s, u, f, x) && Frame(u, v, f, x)
    ensures Frame(s, v, f, x)
  {
    forall k | |s.log| <= k < |v.log| ensures Touches(s.flights[f].canvas, v.log[k].task) {
      if k < |u.log| { assert Touches(s.flights[f].canvas, u.log[k].task); }
    }
  }

  lemma {:induction false} AfterFrame(s: Sys, a: Act, x: Sig)
    requires Fits(s) && Flies(a) && Concerns(s, a) && a.x != x && (a.Finish? ==> a.ok)
    ensures Frame(s, After(s, a), a.f, x) && Fits(After(s, a))
  {
    AfterFits(s, a);
    AfterTells(s, a);
    assert After(s, a).log[|s.log|].task == a.x.task;
  }

  lemma {:induction false} PathMore(t: Tree, h: seq<Sys>, acts: seq<Act>, a: Act, s': Sys)
    returns (h': seq<Sys>, acts': seq<Act>)
    requires Path(t, h, acts) && Step(t, h[|acts|], a, s')
    ensures Path(t, h', acts') && h' == h + [s'] && acts' == acts + [a]
  {
    h', acts' := h + [s'], acts + [a];
    forall k | 0 <= k < |acts'| ensures Step(t, h'[k], acts'[k], h'[k + 1]) {
      if k < |acts| { assert Step(t, h[k], acts[k], h[k + 1]); }
    }
  }

  lemma {:induction false} GoOn(t: Tree, h: seq<Sys>, acts: seq<Act>, a: Act) returns (h': seq<Sys>, acts': seq<Act>)
    requires Path(t, h, acts) && Enabled(h[|acts|], a)
    ensures Continues(t, h, acts, h', acts') && acts' == acts + [a] && h' == h + [After(h[|acts|], a)]
  {
    h', acts' := PathMore(t, h, acts, a, After(h[|acts|], a));
  }

  lemma {:induction false} ContinuesThen(t: Tree, h: seq<Sys>, acts: seq<Act>, h1: seq<Sys>, acts1: seq<Act>,
                                         h2: seq<Sys>, acts2: seq<Act>)
    requires Continues(t, h, acts, h1, acts1) && Continues(t, h1, acts1, h2, acts2)
    ensures Continues(t, h, acts, h2, acts2)
  {
    forall k | |acts| <= k < |acts2| ensures !Dispatches(acts2[k]) {
      if k < |acts1| { assert acts2[k] == acts1[k]; }
    }
  }

  /** A signature that can start, or runs, is brought to success. */
  lemma {:induction false} Complete(t: Tree, h: seq<Sys>, acts: seq<Act>, f: nat, y: Sig, x: Sig)
    returns (h': seq<Sys>, acts': seq<Act>)
    requires Path(t, h, acts) && Fits(h[|acts|]) && f < |h[|acts|].flights| && y != x
    requires Ready(h[|acts|].flights[f].canvas, h[|acts|].flights[f].done, y)
    ensures Continues(t, h, acts, h', acts') && Frame(h[|acts|], h'[|acts'|], f, x) && Fits(h'[|acts'|])
    ensures h'[|acts'|].flights[f].started == h[|acts|].flights[f].started + {y.taskId}
    ensures h'[|acts'|].flights[f].done == h[|acts|].flights[f].done[y.taskId := true]
  {
    var s := h[|acts|];
    ReadyIsLeaf(s.flights[f].canvas, s.flights[f].done, y);
    h', acts' := h, acts;
    if y.taskId !in s.flights[f].started {
      AfterFrame(s, Start(f, y), x);
      h', acts' := GoOn(t, h, acts, Start(f, y));
      var s1 := h'[|acts'|];
      AfterFrame(s1, Finish(f, y, true), x);
      FrameThen(s, s1, After(s1, Finish(f, y, true)), f, x);
      var h1, acts1 := h', acts';
      h', acts' := GoOn(t, h1, acts1, Finish(f, y, true));
      ContinuesThen(t, h, acts, h1, acts1, h', acts');
    } else {
      AfterFrame(s, Finish(f, y, true), x);
      h', acts' := GoOn(t, h, acts, Finish(f, y, true));
    }
  }

  ghost function Unreported(fl: Flight): set<Sig> {
    set z | z in Leaves(fl.canvas) && z.taskId !in fl.done
  }

  lemma {:induction false} Fewer(a: Flight, b: Flight, y: Sig)
    requires b.canvas == a.canvas && y in Unreported(a) && b.done == a.done[y.taskId := true]
    ensures |Unreported(b)| < |Unreported(a)|
  {
    assert Unreported(b) <= Unreported(a) - {y};
    Smaller(Unreported(b), Unreported(a) - {y});
  }

  /** A signature that may start can be brought to where it can. */
  lemma {:induction false} Proceed(t: Tree, h: seq<Sys>, acts: seq<Act>, f: nat, x: Sig)
    returns (h': seq<Sys>, acts': seq<Act>)
    requires Path(t, h, acts) && Fits(h[|acts|]) && f < |h[|acts|].flights| && MayStart(h[|acts|].flights[f], x)
    ensures Continues(t, h, acts, h', acts') && Frame(h[|acts|], h'[|acts'|], f, x) && Fits(h'[|acts'|])
    ensures CanStart(h'[|acts'|].flights[f], x)
    decreases |Unreported(h[|acts|].flights[f])|
  {
    var s := h[|acts|];
    var fl := s.flights[f];
    assert Fit(fl, s.next);
    var y := ReadyBefore(fl.canvas, fl.done, x);
    h', acts' := h, acts;
    if y != x {
      ReadyIsLeaf(fl.canvas, fl.done, y);
      var h1, acts1 := Complete(t, h, acts, f, y, x);
      var s1 := h1[|acts1|];
      Fewer(fl, s1.flights[f], y);
      assert MayStart(s1.flights[f], x);
      h', acts' := Proceed(t, h1, acts1, f, x);
      FrameThen(s, s1, h'[|acts'|], f, x);
      ContinuesThen(t, h, acts, h1, acts1, h', acts');
    }
  }

  /******* Repeating a success *******/

  /** A task begins although its row says that it has succeeded, and it is no error task. */
  ghost predicate Repeats(h: seq<Sys>) {
    exists k, i: TaskId :: 0 <= k < |h| - 1 && BeginsAgain(h[k], h[k + 1], i) && !ErrorTask(h[k], i)
  }

  ghost predicate BeginsAgain(s: Sys, s': Sys, i: TaskId) { Begins(s, s', i) && s.tasks[i].status == SUCCESS }

  ghost predicate Begins(s: Sys, s': Sys, i: TaskId) { i < |s.tasks| && s'.log == s.log + [Began(i)] }

  /** `x` may still start in canvas `f` when its task is signed anew in canvas `g`:
      the new signature can succeed first, and `x` begins all the same. */
  lemma {:induction false} BothRun(t: Tree, h: seq<Sys>, acts: seq<Act>, f: nat, x: Sig, g: nat, y: Sig)
    returns (h': seq<Sys>, acts': seq<Act>)
    requires Path(t, h, acts) && Fits(h[|acts|]) && f < |h[|acts|].flights| && g < |h[|acts|].flights| && f != g
    requires MayStart(h[|acts|].flights[f], x) && MayStart(h[|acts|].flights[g], y) && x.task == y.task
    requires Signs(h[|acts|], y) && !ErrorTask(h[|acts|], y.task)
    requires forall z :: z in Leaves(h[|acts|].flights[f].canvas) && z.taskId == y.taskId ==> z == x
    ensures Continues(t, h, acts, h', acts') && Repeats(h')
  {
    var h3, acts3 := Succeed(t, h, acts, g, y);
    var s3 := h3[|acts3|];
    var h4, acts4 := Proceed(t, h3, acts3, f, x);
    assert h4[|acts4|].tasks[x.task] == s3.tasks[x.task];
    h', acts' := GoOn(t, h4, acts4, Start(f, x));
    ContinuesThen(t, h, acts, h3, acts3, h4, acts4);
    ContinuesThen(t, h, acts, h4, acts4, h', acts');
    SameErrors(h[|acts|], h4[|acts4|]);
    assert BeginsAgain(h'[|acts4|], h'[|acts4| + 1], x.task);
  }

  /** The current signature `y` is brought to success, and its row with it. */
  lemma {:induction false} Succeed(t: Tree, h: seq<Sys>, acts: seq<Act>, g: nat, y: Sig)
    returns (h': seq<Sys>, acts': seq<Act>)
    requires Path(t, h, acts) && Fits(h[|acts|]) && g < |h[|acts|].flights|
    requires MayStart(h[|acts|].flights[g], y) && Signs(h[|acts|], y)
    ensures Continues(t, h, acts, h', acts') && Fits(h'[|acts'|])
    ensures |h'[|acts'|].flights| == |h[|acts|].flights|
    ensures forall f :: 0 <= f < |h[|acts|].flights| && f != g ==> h'[|acts'|].flights[f] == h[|acts|].flights[f]
    ensures h'[|acts'|].onError == h[|acts|].onError
    ensures y.task < |h'[|acts'|].tasks| && h'[|acts'|].tasks[y.task].status == SUCCESS
    ensures h'[|acts'|].tasks[y.task].celeryId == y.taskId
  {
    var h1, acts1 := Proceed(t, h, acts, g, y);
    var s1 := h1[|acts1|];
    ReadyIsLeaf(s1.flights[g].canvas, s1.flights[g].done, y);
    AfterFits(s1, Start(g, y));
    AfterTells(s1, Start(g, y));
    var h2, acts2 := GoOn(t, h1, acts1, Start(g, y));
    assert Running(h2[|acts2|].flights[g], y);
    AfterFits(h2[|acts2|], Finish(g, y, true));
    AfterTells(h2[|acts2|], Finish(g, y, true));
    h', acts' := GoOn(t, h2, acts2, Finish(g, y, true));
    ContinuesThen(t, h, acts, h1, acts1, h2, acts2);
    ContinuesThen(t, h, acts, h2, acts2, h', acts');
  }

  /** From any history that was quiet so far, a dispatch that is not quiet can be
      followed by executions that repeat a success. */
  lemma {:induction false} LoudRepeats(t: Tree, h: seq<Sys>, acts: seq<Act>) returns (h': seq<Sys>, acts': seq<Act>)
    requires WellFormed(t) && Behaviour(t, h, acts) && acts != []
    requires forall k :: 0 <= k < |acts| - 1 ==> Quiet(h[k], acts[k])
    requires !Quiet(h[|acts| - 1], acts[|acts| - 1])
    ensures Continues(t, h, acts, h', acts') && Repeats(h')
  {
    var n := |acts| - 1;
    var s, a, s' := h[n], acts[n], h[n + 1];
    assert Step(t, s, a, s');
    AlwaysSafe(t, h, acts, n);
    DispatchExtends(t, s, a, s');
    ExtendedFits(s, a.at, s');
    var f, x := SignedTwice(t, s, a, s');
    h', acts' := BothRun(t, h, acts, f, x, |s.flights|, SigOf(s'.tasks, x.task));
  }

  /** After a dispatch that is not quiet, two canvases may start the same task. */
  lemma {:induction false} SignedTwice(t: Tree, s: Sys, a: Act, s': Sys) returns (f: nat, x: Sig)
    requires Safe(s) && Step(t, s, a, s') && Dispatches(a) && Extended(s, a.at, s') && !Clear(s, a.at)
    ensures f < |s.flights| < |s'.flights| && x.task < |s'.tasks| && !ErrorTask(s', x.task)
    ensures MayStart(s'.flights[f], x) && MayStart(s'.flights[|s.flights|], SigOf(s'.tasks, x.task))
    ensures forall z :: z in Leaves(s'.flights[f].canvas) && z.taskId == s'.tasks[x.task].celeryId ==> z == x
  {
    f, x :| 0 <= f < |s.flights| && MayStart(s.flights[f], x) && x.task < |s.tasks| && !ErrorTask(s, x.task)
            && InTree(s.tasks[x.task], a.at);
    SameErrors(s, s');
    StillPending(t, s, a, s', f, x);
    assert s'.flights[f] == s'.flights[..|s.flights|][f] == s.flights[f];
    SameIdSame(s, a.at, s', f, x);
  }

  lemma {:induction false} SameIdSame(s: Sys, at: Tree, s': Sys, f: nat, x: Sig)
    requires Safe(s) && Kept(s, at, s') && f < |s.flights| && InHand(s.flights[f], x) && !ErrorTask(s, x.task)
    ensures forall z :: z in Leaves(s.flights[f].canvas) && z.taskId == s'.tasks[x.task].celeryId ==> z == x
  {
    assert Fit(s.flights[f], s.next) && Signs(s, x);
  }

  lemma {:induction false} StillPending(t: Tree, s: Sys, a: Act, s': Sys, f: nat, x: Sig)
    requires Safe(s) && Step(t, s, a, s') && Dispatches(a) && Extended(s, a.at, s')
    requires f < |s.flights| && MayStart(s.flights[f], x) && !ErrorTask(s, x.task) && InTree(s.tasks[x.task], a.at)
    ensures MayStart(s'.flights[|s.flights|], SigOf(s'.tasks, x.task))
  {
    assert InHand(s.flights[f], x);
    assert SignsPending(a.at, s'.tasks, SigOf(s'.tasks, x.task));
  }

  /** A history is quiet exactly when no state of it can be continued, by the
      executor alone, to where a task begins after it has succeeded that is no error task.
      Failures, and what the error tasks do, are part of these histories. */
  lemma {:induction false} QuietIff(t: Tree, h: seq<Sys>, acts: seq<Act>)
    requires WellFormed(t) && Behaviour(t, h, acts)
    ensures AllQuiet(h, acts)
            <==> forall n, h', acts' :: ContinuesFrom(t, h, acts, n, h', acts') ==> !Repeats(h')
  {
    if AllQuiet(h, acts) {
      forall n: nat, h', acts' | ContinuesFrom(t, h, acts, n, h', acts')
        ensures !Repeats(h')
      {
        QuietContinues(t, h[..n + 1], acts[..n], h', acts');
      }
    } else {
      var k := FirstLoud(h, acts, |acts|);
      var h0, acts0 := h[..k + 2], acts[..k + 1];
      forall i | 0 <= i < |acts0| ensures Step(t, h0[i], acts0[i], h0[i + 1]) {
        assert Step(t, h[i], acts[i], h[i + 1]);
      }
      var h', acts' := LoudRepeats(t, h0, acts0);
      assert ContinuesFrom(t, h, acts, k + 1, h', acts');
    }
  }

  lemma {:induction false} FirstLoud(h: seq<Sys>, acts: seq<Act>, n: nat) returns (k: nat)
    requires n <= |acts| && |h| == |acts| + 1 && exists i :: 0 <= i < n && !Quiet(h[i], acts[i])
    ensures k < n && !Quiet(h[k], acts[k]) && forall i :: 0 <= i < k ==> Quiet(h[i], acts[i])
  {
    if i :| 0 <= i < n - 1 && !Quiet(h[i], acts[i]) { k := FirstLoud(h, acts, n - 1); } else { k := n - 1; }
  }

  lemma {:induction false} QuietContinues(t: Tree, h: seq<Sys>, acts: seq<Act>, h': seq<Sys>, acts': seq<Act>)
    requires WellFormed(t) && Continues(t, h, acts, h', acts') && Initial(h[0]) && AllQuiet(h, acts)
    ensures !Repeats(h')
  {
    assert h'[0] == h[0];
    forall k | 0 <= k < |acts'| ensures Quiet(h'[k], acts'[k]) {
      if k < |acts| { assert h'[k] == h[k] && acts'[k] == acts[k] && Quiet(h[k], acts[k]); }
    }
    if k, i: TaskId :| 0 <= k < |h'| - 1 && BeginsAgain(h'[k], h'[k + 1], i) && !ErrorTask(h'[k], i) {
      AlwaysSafe(t, h', acts', k);
      assert Step(t, h'[k], acts'[k], h'[k + 1]);
      SuccessStays(t, h'[k], acts'[k], h'[k + 1], i);
    }
  }

  /** To run a step without child steps resets nothing. */
  lemma {:induction false} RunAlone(t: Tree, s: Sys)
    requires t.steps == [] && UniqueIds(s.tasks, s.next)
    ensures Step(t, s, Run(t), s.(flights := s.flights + [Flight(t.id, Sigs(s.tasks), RunPlan(t, s.tasks), {}, map[])]))
  {
    assert Ids(t) - {t.id} == {};
  }

  /** Such histories exist: a step with a pending task is run twice in a row. */
  lemma {:induction false} RunTwice(t: Tree, tasks: seq<Task>, next: Uuid, onError: OnError, i: TaskId)
    returns (h': seq<Sys>, acts': seq<Act>)
    requires t.steps == [] && UniqueIds(tasks, next)
    requires forall d :: i !in ErrorsOf(onError, Some(d))
    requires i < |tasks| && tasks[i].step == Some(t.id) && tasks[i].status == PENDING
    ensures Behaviour(t, h', acts') && [Run(t), Run(t)] <= acts' && h'[0] == Fresh(tasks, next, onError) && Repeats(h')
  {
    var fl := Flight(t.id, Sigs(tasks), RunPlan(t, tasks), {}, map[]);
    var s := Fresh(tasks, next, onError);
    var h := [s, s.(flights := [fl]), s.(flights := [fl, fl])];
    assert [fl] + [fl] == [fl, fl] && [] + [fl] == [fl];
    RunAlone(t, h[0]);
    RunAlone(t, h[1]);
    PlanCurrent(t, tasks);
    assert SignsPending(t, tasks, SigOf(tasks, i));
    assert MayStart(h[1].flights[0], SigOf(tasks, i));
    assert !Quiet(h[1], Run(t));
    h', acts' := LoudRepeats(t, h, [Run(t), Run(t)]);
  }
}

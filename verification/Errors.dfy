/** What the error tasks of a step do to a history: exactly when a task can come to begin,
    and a workflow whose error tasks begin although their rows say SUCCESS. */
module Errors {
  import opened Rows
  import opened Canvas
  import opened Executor
  import opened History
  import opened Repeats

  /******* What can come to begin *******/

  /** `x` is in hand in canvas `f`, and linked to a signature of task `i`. */
  ghost predicate Threatens(s: Sys, f: nat, x: Sig, i: TaskId) {
    f < |s.flights| && InHand(s.flights[f], x) && exists e :: e in Linked(s.onError, s.flights[f], x) && e.task == i
  }

  ghost predicate Called(s: Sys, i: TaskId) { exists x :: x in s.called && x.task == i }

  ghost predicate Pending(s: Sys, f: nat, x: Sig, i: TaskId) {
    f < |s.flights| && MayStart(s.flights[f], x) && x.task == i
  }

  /** Task `i` was called for, or a signature in hand is linked to it, or it may start itself. */
  ghost predicate Summoned(s: Sys, i: TaskId) {
    || Called(s, i)
    || (exists f: nat, x :: Threatens(s, f, x, i))
    || (exists f: nat, x :: Pending(s, f, x, i))
  }

  lemma {:induction false} NoNewPending(s: Sys, a: Act, s': Sys, f: nat, x: Sig, i: TaskId)
    requires Fits(s) && !Dispatches(a) && Flown(s, a, s') && Pending(s', f, x, i)
    ensures Summoned(s, i)
  {
    LiveStays(s, a, s', f, x);
    assert Pending(s, f, x, i);
  }

  lemma {:induction false} NoNewThreat(s: Sys, a: Act, s': Sys, f: nat, x: Sig, i: TaskId)
    requires Fits(s) && !Dispatches(a) && Told(s, a, s') && Flown(s, a, s') && Threatens(s', f, x, i)
    ensures Summoned(s, i)
  {
    LiveStays(s, a, s', f, x);
    assert Linked(s'.onError, s'.flights[f], x) == Linked(s.onError, s.flights[f], x);
    assert Threatens(s, f, x, i);
  }

  lemma {:induction false} NoNewCall(t: Tree, s: Sys, a: Act, s': Sys, i: TaskId)
    requires Fits(s) && Step(t, s, a, s') && !Dispatches(a) && Flown(s, a, s') && Called(s', i)
    ensures Summoned(s, i)
  {
    var x :| x in s'.called && x.task == i;
    if x !in s.called {
      assert a.Finish? && x in Linked(s.onError, s.flights[a.f], a.x);
      assert Threatens(s, a.f, a.x, i);
    }
  }

  /** Executing summons nothing, and begins only what was summoned. */
  lemma {:induction false} SummonedBefore(t: Tree, s: Sys, a: Act, s': Sys, i: TaskId)
    requires Fits(s) && Step(t, s, a, s') && !Dispatches(a)
    ensures Summoned(s', i) || Logged(a) == Began(i) ==> Summoned(s, i)
    ensures s'.log == s.log + [Logged(a)]
  {
    StepTells(t, s, a, s');
    if Called(s', i) {
      NoNewCall(t, s, a, s', i);
    } else if f: nat, x :| Threatens(s', f, x, i) {
      NoNewThreat(s, a, s', f, x, i);
    } else if f: nat, x :| Pending(s', f, x, i) {
      NoNewPending(s, a, s', f, x, i);
    }
    if a.Start? && Logged(a) == Began(i) {
      StartIsLive(s.flights[a.f], a.x);
      assert Pending(s, a.f, a.x, i);
    }
    if a.StartError? && Logged(a) == Began(i) { assert Called(s, i); }
  }

  /** From state `m` on the executor works alone. */
  ghost predicate Alone(t: Tree, h: seq<Sys>, acts: seq<Act>, m: nat) {
    Path(t, h, acts) && m <= |acts| && forall k :: m <= k < |acts| ==> !Dispatches(acts[k])
  }

  lemma {:induction false} AloneFits(t: Tree, h: seq<Sys>, acts: seq<Act>, m: nat, n: nat)
    requires WellFormed(t) && Alone(t, h, acts, m) && m <= n <= |acts| && Fits(h[m])
    ensures Fits(h[n])
  {
    if m < n {
      AloneFits(t, h, acts, m, n - 1);
      assert Step(t, h[n - 1], acts[n - 1], h[n - 1 + 1]);
      StepFits(t, h[n - 1], acts[n - 1], h[n]);
    }
  }

  /** Task `i` is summoned, or has begun since the log was `from` long. */
  ghost predicate SummonedSince(s: Sys, from: nat, i: TaskId) {
    from <= |s.log| && (Summoned(s, i) || Began(i) in s.log[from..])
  }

  lemma {:induction false} BeganSummoned(t: Tree, h: seq<Sys>, acts: seq<Act>, m: nat, n: nat, i: TaskId)
    requires WellFormed(t) && Alone(t, h, acts, m) && m <= n <= |acts| && Fits(h[m])
    ensures SummonedSince(h[n], |h[m].log|, i) ==> SummonedSince(h[m], |h[m].log|, i)
  {
    var since := seq(|h|, k requires 0 <= k < |h| => SummonedSince(h[k], |h[m].log|, i));
    forall k | m <= k < n ensures since[k + 1] ==> since[k] {
      SummonedNext(t, h, acts, m, k, i);
    }
    if since[n] { Backwards(since, m, n); }
  }

  lemma {:induction false} Backwards(since: seq<bool>, m: nat, n: nat)
    requires m <= n < |since| && since[n] && forall k :: m <= k < n && since[k + 1] ==> since[k]
    ensures since[m]
  {
    if m < n {
      assert since[n - 1 + 1];
      Backwards(since, m, n - 1);
    }
  }

  lemma {:induction false} AloneLog(t: Tree, h: seq<Sys>, acts: seq<Act>, m: nat, n: nat)
    requires Alone(t, h, acts, m) && m <= n <= |acts|
    ensures |h[m].log| <= |h[n].log|
  {
    if m < n {
      AloneLog(t, h, acts, m, n - 1);
      assert Step(t, h[n - 1], acts[n - 1], h[n - 1 + 1]);
    }
  }

  lemma {:induction false} SummonedNext(t: Tree, h: seq<Sys>, acts: seq<Act>, m: nat, n: nat, i: TaskId)
    requires WellFormed(t) && Alone(t, h, acts, m) && m <= n < |acts| && Fits(h[m])
    ensures SummonedSince(h[n + 1], |h[m].log|, i) ==> SummonedSince(h[n], |h[m].log|, i)
  {
    AloneFits(t, h, acts, m, n);
    AloneLog(t, h, acts, m, n);
    assert Step(t, h[n], acts[n], h[n + 1]);
    SummonedStep(t, h[n], acts[n], h[n + 1], |h[m].log|, i);
  }

  lemma {:induction false} SummonedStep(t: Tree, s: Sys, a: Act, s': Sys, from: nat, i: TaskId)
    requires Fits(s) && Step(t, s, a, s') && !Dispatches(a) && from <= |s.log|
    ensures from <= |s'.log| && (SummonedSince(s', from, i) ==> SummonedSince(s, from, i))
  {
    SummonedBefore(t, s, a, s', i);
    assert s'.log[from..] == s.log[from..] + [Logged(a)];
  }

  /** `i` begins after the history `h`. */
  ghost predicate BeginsAfter(h: seq<Sys>, h': seq<Sys>, i: TaskId) {
    && h != [] && h' != [] && |h[|h| - 1].log| <= |h'[|h'| - 1].log|
    && Began(i) in h'[|h'| - 1].log[|h[|h| - 1].log|..]
  }

  lemma {:induction false} StartPending(t: Tree, h: seq<Sys>, acts: seq<Act>, f: nat, x: Sig)
    returns (h': seq<Sys>, acts': seq<Act>)
    requires Path(t, h, acts) && Fits(h[|acts|]) && f < |h[|acts|].flights| && MayStart(h[|acts|].flights[f], x)
    ensures Continues(t, h, acts, h', acts') && BeginsAfter(h, h', x.task) && Fits(h'[|acts'|])
    ensures |h'[|acts'|].flights| == |h[|acts|].flights| && Running(h'[|acts'|].flights[f], x)
    ensures h'[|acts'|].onError == h[|acts|].onError
    ensures h'[|acts'|].flights[f].at == h[|acts|].flights[f].at && h'[|acts'|].flights[f].sigs == h[|acts|].flights[f].sigs
  {
    var h1, acts1 := Proceed(t, h, acts, f, x);
    h', acts' := StartReady(t, h1, acts1, f, x);
    ContinuesThen(t, h, acts, h1, acts1, h', acts');
    LastBegins(h[|acts|].log, h1[|acts1|].log, x.task);
  }

  lemma {:induction false} StartReady(t: Tree, h: seq<Sys>, acts: seq<Act>, f: nat, x: Sig)
    returns (h': seq<Sys>, acts': seq<Act>)
    requires Path(t, h, acts) && Fits(h[|acts|]) && f < |h[|acts|].flights| && CanStart(h[|acts|].flights[f], x)
    ensures Continues(t, h, acts, h', acts') && Fits(h'[|acts'|]) && h'[|acts'|] == After(h[|acts|], Start(f, x))
    ensures |h'[|acts'|].flights| == |h[|acts|].flights| && Running(h'[|acts'|].flights[f], x)
  {
    var s := h[|acts|];
    ReadyIsLeaf(s.flights[f].canvas, s.flights[f].done, x);
    AfterFits(s, Start(f, x));
    h', acts' := GoOn(t, h, acts, Start(f, x));
  }

  lemma {:induction false} LastBegins(a: seq<Event>, b: seq<Event>, i: TaskId)
    requires a <= b
    ensures Began(i) in (b + [Began(i)])[|a|..]
  {
    assert (b + [Began(i)])[|a|..] == b[|a|..] + [Began(i)];
  }

  lemma {:induction false} CallRunning(t: Tree, h: seq<Sys>, acts: seq<Act>, f: nat, x: Sig, e: Sig)
    returns (h': seq<Sys>, acts': seq<Act>)
    requires Path(t, h, acts) && f < |h[|acts|].flights| && Running(h[|acts|].flights[f], x)
    requires e in Linked(h[|acts|].onError, h[|acts|].flights[f], x)
    ensures Continues(t, h, acts, h', acts') && BeginsAfter(h, h', e.task)
  {
    var h1, acts1 := GoOn(t, h, acts, Finish(f, x, false));
    h', acts' := GoOn(t, h1, acts1, StartError(e));
    ContinuesThen(t, h, acts, h1, acts1, h', acts');
    var from := |h[|acts|].log|;
    assert h'[|acts'|].log[from..] == [Ended(x.task, false), Began(e.task)];
    assert h'[|acts'|].log[from..][1] == Began(e.task);
  }

  lemma {:induction false} CallThreatened(t: Tree, h: seq<Sys>, acts: seq<Act>, f: nat, x: Sig, i: TaskId)
    returns (h': seq<Sys>, acts': seq<Act>)
    requires Path(t, h, acts) && Fits(h[|acts|]) && Threatens(h[|acts|], f, x, i)
    ensures Continues(t, h, acts, h', acts') && BeginsAfter(h, h', i)
  {
    var s := h[|acts|];
    var e :| e in Linked(s.onError, s.flights[f], x) && e.task == i;
    if Running(s.flights[f], x) {
      h', acts' := CallRunning(t, h, acts, f, x, e);
    } else {
      var h1, acts1 := StartPending(t, h, acts, f, x);
      assert Linked(h1[|acts1|].onError, h1[|acts1|].flights[f], x) == Linked(s.onError, s.flights[f], x);
      h', acts' := CallRunning(t, h1, acts1, f, x, e);
      ContinuesThen(t, h, acts, h1, acts1, h', acts');
      LaterToo(h, h1, h', i);
    }
  }

  lemma {:induction false} LaterToo(h: seq<Sys>, h1: seq<Sys>, h2: seq<Sys>, i: TaskId)
    requires h != [] && h1 != [] && |h[|h| - 1].log| <= |h1[|h1| - 1].log| && BeginsAfter(h1, h2, i)
    ensures BeginsAfter(h, h2, i)
  {
    var a, b, log := |h[|h| - 1].log|, |h1[|h1| - 1].log|, h2[|h2| - 1].log;
    assert log[a..][b - a..] == log[b..];
  }

  lemma {:induction false} Begins(t: Tree, h: seq<Sys>, acts: seq<Act>, i: TaskId)
    returns (h': seq<Sys>, acts': seq<Act>)
    requires Path(t, h, acts) && Fits(h[|acts|]) && Summoned(h[|acts|], i)
    ensures Continues(t, h, acts, h', acts') && BeginsAfter(h, h', i)
  {
    var s := h[|acts|];
    if Called(s, i) {
      var x :| x in s.called && x.task == i;
      h', acts' := GoOn(t, h, acts, StartError(x));
      assert h'[|acts'|].log[|s.log|..] == [Began(i)];
    } else if f: nat, x :| Threatens(s, f, x, i) {
      h', acts' := CallThreatened(t, h, acts, f, x, i);
    } else {
      var f: nat, x :| Pending(s, f, x, i);
      h', acts' := StartPending(t, h, acts, f, x);
    }
  }

  lemma {:induction false} BeganBefore(t: Tree, h: seq<Sys>, acts: seq<Act>, h': seq<Sys>, acts': seq<Act>, i: TaskId)
    requires WellFormed(t) && Continues(t, h, acts, h', acts') && Fits(h[|acts|]) && BeginsAfter(h, h', i)
    ensures Summoned(h[|acts|], i)
  {
    assert h'[|acts|] == h[|acts|];
    BeganSummoned(t, h', acts', |acts|, |acts'|, i);
  }

  /** In any history the executor alone can bring a task to begin exactly when a failure has
      called for it, a signature that runs or may start is linked to it, or it may start. */
  lemma {:induction false} BeginIff(t: Tree, h: seq<Sys>, acts: seq<Act>, i: TaskId)
    requires WellFormed(t) && Behaviour(t, h, acts)
    ensures Summoned(h[|acts|], i)
            <==> exists h', acts' :: Continues(t, h, acts, h', acts') && BeginsAfter(h, h', i)
  {
    AlwaysFits(t, h, acts, |acts|);
    if Summoned(h[|acts|], i) {
      var h', acts' := Begins(t, h, acts, i);
    }
    if h', acts' :| Continues(t, h, acts, h', acts') && BeginsAfter(h, h', i) {
      BeganBefore(t, h, acts, h', acts', i);
    }
  }

  /** After quiet dispatches, a task whose row says SUCCESS can begin again exactly when it is
      an error task that was called for, is linked to something in hand, or may start. */
  lemma {:induction false} AgainIff(t: Tree, h: seq<Sys>, acts: seq<Act>, i: TaskId)
    requires WellFormed(t) && Behaviour(t, h, acts) && AllQuiet(h, acts)
    requires i < |h[|acts|].tasks| && h[|acts|].tasks[i].status == SUCCESS
    ensures ErrorTask(h[0], i) && Summoned(h[|acts|], i)
            <==> exists h', acts' :: Continues(t, h, acts, h', acts') && BeginsAfter(h, h', i)
  {
    BeginIff(t, h, acts, i);
    AlwaysSafe(t, h, acts, |acts|);
    SameErrors(h[0], h[|acts|]);
    if !ErrorTask(h[0], i) { NotSummoned(h[|acts|], i); }
  }

  lemma {:induction false} NotSummoned(s: Sys, i: TaskId)
    requires Safe(s) && i < |s.tasks| && s.tasks[i].status == SUCCESS && !ErrorTask(s, i)
    ensures !Summoned(s, i)
  {
    if f: nat, x :| Threatens(s, f, x, i) {
      var e :| e in Linked(s.onError, s.flights[f], x) && e.task == i;
      LinkedErrors(s, f, x, e);
    }
    if f: nat, x :| Pending(s, f, x, i) { assert InHand(s.flights[f], x); }
  }

  /******* Calls are neither lost nor made up *******/

  /** Error task `e` stands in `on_error` of the step of `x`, or of the step the canvas was made for. */
  ghost predicate Answers(onError: OnError, fl: Flight, x: Sig, e: TaskId) {
    || (x.step.Some? && x.step.value in onError && e in onError[x.step.value])
    || (fl.at in onError && e in onError[fl.at])
  }

  /** A canvas is handed out with the step it was made for, and with what signs each row then. */
  lemma {:induction false} HandedOut(t: Tree, s: Sys, a: Act, s': Sys)
    requires Step(t, s, a, s') && Dispatches(a)
    ensures |s'.flights| == |s.flights| + 1
    ensures var fl := s'.flights[|s.flights|];
            && fl.at == a.at.id && |fl.sigs| == |s'.tasks|
            && forall e :: 0 <= e < |fl.sigs| ==>
                 fl.sigs[e] == Sig(e, s'.tasks[e].celeryId, s'.tasks[e].step, s'.tasks[e].work)
  {
  }

  /** What begins or ends is told to the row with that task id, if there still is one, and to the log;
      no other row changes. */
  lemma {:induction false} ResultStored(t: Tree, s: Sys, a: Act, s': Sys, i: TaskId)
    requires Step(t, s, a, s') && !Dispatches(a) && i < |s.tasks|
    ensures |s'.tasks| == |s.tasks|
    ensures s'.tasks[i] == if s.tasks[i].celeryId != a.x.taskId then s.tasks[i]
                           else if a.Start? || a.StartError? then s.tasks[i].(status := STARTED)
                           else if a.ok then s.tasks[i].(status := SUCCESS, progress := 100)
                           else s.tasks[i].(status := FAILURE)
    ensures s'.log == s.log + [if a.Start? || a.StartError? then Began(a.x.task) else Ended(a.x.task, a.ok)]
  {
  }

  /** The act is a failure that calls for the error signature `z`: the signature that the error
      task had when the canvas was handed out. */
  ghost predicate CallsFor(s: Sys, a: Act, z: Sig) {
    && a.Finish? && !a.ok && a.f < |s.flights|
    && var fl := s.flights[a.f];
       z.task < |fl.sigs| && z == fl.sigs[z.task] && Answers(s.onError, fl, a.x, z.task)
  }

  lemma {:induction false} LinkedIff(s: Sys, a: Act, z: Sig)
    requires Fits(s) && a.Finish? && !a.ok && a.f < |s.flights|
    ensures z in Linked(s.onError, s.flights[a.f], a.x) <==> CallsFor(s, a, z)
  {
    assert OwnsSigs(s, s.flights[a.f].sigs);
  }

  /** A failure calls once for each such signature and for nothing else; a beginning answers one call,
      an end one beginning; nothing else touches what is called for or at work. */
  lemma {:induction false} CallsStep(t: Tree, s: Sys, a: Act, s': Sys, z: Sig)
    requires Fits(s) && Step(t, s, a, s')
    ensures s'.called[z] + (if a == StartError(z) then 1 else 0) == s.called[z] + if CallsFor(s, a, z) then 1 else 0
    ensures s'.handling[z] + (if a.FinishError? && a.x == z then 1 else 0)
            == s.handling[z] + if a == StartError(z) then 1 else 0
  {
    if a.Finish? && !a.ok { LinkedIff(s, a, z); }
  }

  ghost function Calls(h: seq<Sys>, acts: seq<Act>, n: nat, z: Sig): nat
    requires n <= |acts| < |h|
  {
    if n == 0 then 0 else Calls(h, acts, n - 1, z) + if CallsFor(h[n - 1], acts[n - 1], z) then 1 else 0
  }

  ghost function Begun(acts: seq<Act>, n: nat, z: Sig): nat
    requires n <= |acts|
  {
    if n == 0 then 0 else Begun(acts, n - 1, z) + if acts[n - 1] == StartError(z) then 1 else 0
  }

  ghost function Done(acts: seq<Act>, n: nat, z: Sig): nat
    requires n <= |acts|
  {
    if n == 0 then 0 else Done(acts, n - 1, z) + if acts[n - 1].FinishError? && acts[n - 1].x == z then 1 else 0
  }

  /** In every history each call of an error task is waiting or has begun, and what has begun is at
      work or has ended. */
  lemma {:induction false} CallsConserved(t: Tree, h: seq<Sys>, acts: seq<Act>, n: nat, z: Sig)
    requires WellFormed(t) && Behaviour(t, h, acts) && n <= |acts|
    ensures Calls(h, acts, n, z) == h[n].called[z] + Begun(acts, n, z)
    ensures Begun(acts, n, z) == h[n].handling[z] + Done(acts, n, z)
  {
    if n > 0 {
      CallsConserved(t, h, acts, n - 1, z);
      CallsNext(t, h, acts, n - 1, z);
    }
  }

  lemma {:induction false} CallsNext(t: Tree, h: seq<Sys>, acts: seq<Act>, n: nat, z: Sig)
    requires WellFormed(t) && Behaviour(t, h, acts) && n < |acts|
    ensures var a := acts[n];
            h[n + 1].called[z] + (if a == StartError(z) then 1 else 0) == h[n].called[z] + if CallsFor(h[n], a, z) then 1 else 0
    ensures var a := acts[n];
            h[n + 1].handling[z] + (if a.FinishError? && a.x == z then 1 else 0)
            == h[n].handling[z] + if a == StartError(z) then 1 else 0
  {
    AlwaysFits(t, h, acts, n);
    assert Step(t, h[n], acts[n], h[n + 1]);
    CallsStep(t, h[n], acts[n], h[n + 1], z);
  }
}

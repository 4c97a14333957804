/** The status of a step, computed as the code computes it, and its closed form. */
module Status {
  import opened Rows

  predicate LiveIn(r: Task, id: StepId) { r.step == Some(id) && r.retried.None? }

  predicate AnyLive(tasks: seq<Task>, id: StepId) {
    exists i :: 0 <= i < |tasks| && LiveIn(tasks[i], id)
  }

  predicate HasLive(tasks: seq<Task>, id: StepId, s: State) {
    exists i :: 0 <= i < |tasks| && LiveIn(tasks[i], id) && tasks[i].status == s
  }

  /** The status the tasks of the step give before its child steps are read. */
  function OwnStatus(tasks: seq<Task>, id: StepId): State {
    if HasLive(tasks, id, STARTED) then STARTED
    else if HasLive(tasks, id, PENDING) then
      if HasLive(tasks, id, SUCCESS) then STARTED else PENDING
    else SUCCESS
  }

  /** One round of the loop over the child steps: the status so far and whether a
      finished child was seen, after a child that has not failed. */
  function AfterChild(c: State, status: State, partiallyDone: bool): (State, bool) {
    match c
    case STARTED => (STARTED, partiallyDone)
    case SUCCESS => (status, true)
    case PENDING => (if status == STARTED || partiallyDone then STARTED else PENDING, partiallyDone)
    case _ => (status, partiallyDone)
  }

  /** The loop over the statuses of the child steps. */
  function Scan(cs: seq<State>, status: State, partiallyDone: bool): State {
    if cs == [] then status
    else if cs[0] == FAILURE then FAILURE
    else
      var (next, done) := AfterChild(cs[0], status, partiallyDone);
      Scan(cs[1..], next, done)
  }

  function StatusOf(t: Tree, tasks: seq<Task>): State {
    if t.steps == [] && !AnyLive(tasks, t.id) then PENDING
    else if HasLive(tasks, t.id, FAILURE) then FAILURE
    else if HasLive(tasks, t.id, REVOKED) then REVOKED
    else Scan(seq(|t.steps|, i requires 0 <= i < |t.steps| => StatusOf(t.steps[i], tasks)),
              OwnStatus(tasks, t.id), false)
  }

  function ChildStatuses(t: Tree, tasks: seq<Task>): seq<State> {
    seq(|t.steps|, i requires 0 <= i < |t.steps| => StatusOf(t.steps[i], tasks))
  }

  /******* The loop in closed form *******/

  /** A finished child precedes a pending one. */
  ghost predicate DoneBeforePending(cs: seq<State>) {
    exists i, j :: 0 <= i < j < |cs| && cs[i] == SUCCESS && cs[j] == PENDING
  }

  lemma {:induction false} ScanClosed(cs: seq<State>, status: State, partiallyDone: bool)
    requires status in {SUCCESS, PENDING, STARTED}
    ensures Scan(cs, status, partiallyDone) ==
            if FAILURE in cs then FAILURE
            else if status == STARTED || STARTED in cs || DoneBeforePending(cs) || (partiallyDone && PENDING in cs) then STARTED
            else if status == PENDING || PENDING in cs then PENDING
            else SUCCESS
  {
    if cs != [] {
      var rest := cs[1..];
      assert forall s :: s in cs <==> s == cs[0] || s in rest;
      assert DoneBeforePending(cs) <==> (cs[0] == SUCCESS && PENDING in rest) || DoneBeforePending(rest) by {
        if DoneBeforePending(rest) {
          var i, j :| 0 <= i < j < |rest| && rest[i] == SUCCESS && rest[j] == PENDING;
          assert cs[i + 1] == SUCCESS && cs[j + 1] == PENDING;
        }
        if cs[0] == SUCCESS && PENDING in rest {
          var j :| 0 <= j < |rest| && rest[j] == PENDING;
          assert cs[j + 1] == PENDING;
        }
        if DoneBeforePending(cs) {
          var i, j :| 0 <= i < j < |cs| && cs[i] == SUCCESS && cs[j] == PENDING;
          assert rest[j - 1] == PENDING;
          if i > 0 { assert rest[i - 1] == SUCCESS; }
        }
      }
      match cs[0]
      case FAILURE =>
      case STARTED => ScanClosed(rest, STARTED, partiallyDone);
      case SUCCESS => ScanClosed(rest, status, true);
      case PENDING => ScanClosed(rest, if status == STARTED || partiallyDone then STARTED else PENDING, partiallyDone);
      case _ => ScanClosed(rest, status, partiallyDone);
    }
  }

  /** The status of a step from those of its tasks and child steps. */
  lemma {:induction false} StatusClosed(t: Tree, tasks: seq<Task>)
    ensures StatusOf(t, tasks) ==
            var cs, own := ChildStatuses(t, tasks), OwnStatus(tasks, t.id);
            if t.steps == [] && !AnyLive(tasks, t.id) then PENDING
            else if HasLive(tasks, t.id, FAILURE) then FAILURE
            else if HasLive(tasks, t.id, REVOKED) then REVOKED
            else if FAILURE in cs then FAILURE
            else if own == STARTED || STARTED in cs || DoneBeforePending(cs) then STARTED
            else if own == PENDING || PENDING in cs then PENDING
            else SUCCESS
  {
    ScanClosed(ChildStatuses(t, tasks), OwnStatus(tasks, t.id), false);
  }

  /** Nothing makes the step FAILURE or REVOKED. */
  ghost predicate Ordinary(t: Tree, tasks: seq<Task>) {
    !HasLive(tasks, t.id, FAILURE) && !HasLive(tasks, t.id, REVOKED) && FAILURE !in ChildStatuses(t, tasks)
  }

  /** Work has begun: a task or child step is at it, or some of it is done and more of it is
      to come, among the tasks of the step or further on among the child steps. */
  ghost predicate Underway(t: Tree, tasks: seq<Task>) {
    || HasLive(tasks, t.id, STARTED)
    || (HasLive(tasks, t.id, PENDING) && HasLive(tasks, t.id, SUCCESS))
    || STARTED in ChildStatuses(t, tasks)
    || DoneBeforePending(ChildStatuses(t, tasks))
  }

  lemma {:induction false} StartedIff(t: Tree, tasks: seq<Task>)
    ensures StatusOf(t, tasks) == STARTED <==> Ordinary(t, tasks) && Underway(t, tasks)
  {
    StatusClosed(t, tasks);
    if t.steps == [] && !AnyLive(tasks, t.id) { assert ChildStatuses(t, tasks) == []; }
  }

  lemma {:induction false} PendingIff(t: Tree, tasks: seq<Task>)
    ensures StatusOf(t, tasks) == PENDING
            <==> (t.steps == [] && !AnyLive(tasks, t.id))
                 || (Ordinary(t, tasks) && !Underway(t, tasks)
                     && (HasLive(tasks, t.id, PENDING) || PENDING in ChildStatuses(t, tasks)))
  {
    StatusClosed(t, tasks);
    if t.steps == [] && !AnyLive(tasks, t.id) { assert ChildStatuses(t, tasks) == []; }
  }

  /** What the statuses of the step's own live tasks amount to, read off the rows. */
  lemma {:induction false} HasLiveIff(tasks: seq<Task>, id: StepId, s: State)
    ensures HasLive(tasks, id, s)
            <==> exists r :: r in tasks && r.step == Some(id) && r.retried == None && r.status == s
    ensures AnyLive(tasks, id) <==> exists r :: r in tasks && r.step == Some(id) && r.retried == None
  {
    if i :| 0 <= i < |tasks| && LiveIn(tasks[i], id) && tasks[i].status == s { assert tasks[i] in tasks; }
    if i :| 0 <= i < |tasks| && LiveIn(tasks[i], id) { assert tasks[i] in tasks; }
  }

  /******* The status of a whole subtree in closed form *******/

  /** `d` is in the subtree of `t` and no step strictly above it there has a
      revoked live task: a revoked step hides what is below it. */
  ghost predicate Exposed(d: Tree, t: Tree, tasks: seq<Task>) {
    d == t || (!HasLive(tasks, t.id, REVOKED) && exists i :: 0 <= i < |t.steps| && Exposed(d, t.steps[i], tasks))
  }

  /** A step is FAILURE iff an exposed step of its subtree has a failed live task. */
  lemma {:induction false} FailureIff(t: Tree, tasks: seq<Task>)
    ensures StatusOf(t, tasks) == FAILURE <==> exists d :: Exposed(d, t, tasks) && HasLive(tasks, d.id, FAILURE)
  {
    StatusClosed(t, tasks);
    var cs := ChildStatuses(t, tasks);
    forall i | 0 <= i < |t.steps|
      ensures cs[i] == FAILURE <==> exists d :: Exposed(d, t.steps[i], tasks) && HasLive(tasks, d.id, FAILURE)
    {
      FailureIff(t.steps[i], tasks);
    }
    if HasLive(tasks, t.id, FAILURE) {
      assert Exposed(t, t, tasks);
    } else if !HasLive(tasks, t.id, REVOKED) && FAILURE in cs {
      var i :| 0 <= i < |cs| && cs[i] == FAILURE;
      var d :| Exposed(d, t.steps[i], tasks) && HasLive(tasks, d.id, FAILURE);
      assert Exposed(d, t, tasks);
    }
    if d :| Exposed(d, t, tasks) && HasLive(tasks, d.id, FAILURE) && d != t {
      var i :| 0 <= i < |t.steps| && Exposed(d, t.steps[i], tasks);
      assert cs[i] == FAILURE;
    }
  }

  /** A step is REVOKED iff it has itself a revoked and no failed live task. */
  ghost predicate Masked(t: Tree, tasks: seq<Task>) {
    HasLive(tasks, t.id, REVOKED) && !HasLive(tasks, t.id, FAILURE)
  }

  lemma {:induction false} RevokedIff(t: Tree, tasks: seq<Task>)
    ensures StatusOf(t, tasks) == REVOKED <==> Masked(t, tasks)
  {
    StatusClosed(t, tasks);
  }

  /** The step has something in it and no live task of its own counts against success. */
  ghost predicate NothingLeft(d: Tree, tasks: seq<Task>) {
    && (d.steps != [] || AnyLive(tasks, d.id))
    && !HasLive(tasks, d.id, FAILURE) && !HasLive(tasks, d.id, PENDING) && !HasLive(tasks, d.id, STARTED)
  }

  /** A step is SUCCESS iff it is not revoked and each exposed step below it is
      revoked or has nothing left to do. */
  lemma {:induction false} SuccessIff(t: Tree, tasks: seq<Task>)
    ensures StatusOf(t, tasks) == SUCCESS <==>
            && !Masked(t, tasks)
            && forall d :: Exposed(d, t, tasks) ==> Masked(d, tasks) || NothingLeft(d, tasks)
  {
    StatusClosed(t, tasks);
    var cs := ChildStatuses(t, tasks);
    forall i | 0 <= i < |t.steps|
      ensures cs[i] in {SUCCESS, REVOKED} <==> forall d :: Exposed(d, t.steps[i], tasks) ==> Masked(d, tasks) || NothingLeft(d, tasks)
    {
      SuccessIff(t.steps[i], tasks);
      RevokedIff(t.steps[i], tasks);
      if Masked(t.steps[i], tasks) {
        assert forall d :: Exposed(d, t.steps[i], tasks) ==> d == t.steps[i];
      }
    }
    StatusRange(t, tasks);
    if !HasLive(tasks, t.id, REVOKED) {
      forall d, i | 0 <= i < |t.steps| && Exposed(d, t.steps[i], tasks) ensures Exposed(d, t, tasks) {}
      assert (forall d :: Exposed(d, t, tasks) ==> Masked(d, tasks) || NothingLeft(d, tasks)) <==>
             (NothingLeft(t, tasks) && forall i :: 0 <= i < |cs| ==> cs[i] in {SUCCESS, REVOKED});
    }
    assert Exposed(t, t, tasks);
    assert DoneBeforePending(cs) ==> PENDING in cs;
    assert (forall i :: 0 <= i < |cs| ==> cs[i] in {SUCCESS, REVOKED}) <==>
           FAILURE !in cs && STARTED !in cs && PENDING !in cs by {
      assert forall i :: 0 <= i < |cs| ==> cs[i] in cs;
    }
  }

  lemma {:induction false} StatusRange(t: Tree, tasks: seq<Task>)
    ensures StatusOf(t, tasks) in {PENDING, STARTED, SUCCESS, FAILURE, REVOKED}
    ensures forall s :: s in ChildStatuses(t, tasks) ==> s in {PENDING, STARTED, SUCCESS, FAILURE, REVOKED}
  {
    StatusClosed(t, tasks);
    forall i | 0 <= i < |t.steps| ensures ChildStatuses(t, tasks)[i] in {PENDING, STARTED, SUCCESS, FAILURE, REVOKED} {
      StatusRange(t.steps[i], tasks);
    }
  }

  /******* Corollaries *******/

  lemma {:induction false} ExposedUnlessRevoked(d: Tree, t: Tree, tasks: seq<Task>)
    requires forall e :: Sub(e, t) ==> !HasLive(tasks, e.id, REVOKED)
    ensures Exposed(d, t, tasks) <==> Sub(d, t)
  {
    forall i | 0 <= i < |t.steps| ensures Exposed(d, t.steps[i], tasks) <==> Sub(d, t.steps[i]) {
      assert forall e :: Sub(e, t.steps[i]) ==> Sub(e, t);
      ExposedUnlessRevoked(d, t.steps[i], tasks);
    }
    assert Sub(t, t);
  }

  /** With ordinary task statuses and no empty step, SUCCESS means that every
      live task of the subtree succeeded. */
  lemma {:induction false} SuccessMeansAllDone(t: Tree, tasks: seq<Task>)
    requires forall i :: 0 <= i < |tasks| && InTree(tasks[i], t) && tasks[i].retried.None?
               ==> tasks[i].status in {PENDING, STARTED, SUCCESS, FAILURE}
    requires forall d :: Sub(d, t) ==> d.steps != [] || AnyLive(tasks, d.id)
    ensures StatusOf(t, tasks) == SUCCESS <==>
            forall i :: 0 <= i < |tasks| && InTree(tasks[i], t) && tasks[i].retried.None? ==> tasks[i].status == SUCCESS
  {
    forall d | Sub(d, t) ensures !HasLive(tasks, d.id, REVOKED) { SubIdIn(d, t); }
    SuccessIff(t, tasks);
    forall d ensures Exposed(d, t, tasks) <==> Sub(d, t) { ExposedUnlessRevoked(d, t, tasks); }
    if StatusOf(t, tasks) == SUCCESS {
      forall i | 0 <= i < |tasks| && InTree(tasks[i], t) && tasks[i].retried.None?
        ensures tasks[i].status == SUCCESS
      {
        var d := StepWithId(t, tasks[i].step.value);
        assert Exposed(d, t, tasks) && LiveIn(tasks[i], d.id);
      }
    } else {
      assert Exposed(t, t, tasks);
      var d :| Exposed(d, t, tasks) && !NothingLeft(d, tasks);
      SubIdIn(d, t);
    }
  }

  /** Reordering the child steps changes the status at most between PENDING and STARTED. */
  lemma {:induction false} OrderOnlyBlursStart(t: Tree, u: Tree, tasks: seq<Task>)
    requires t.id == u.id && forall c :: c in t.steps <==> c in u.steps
    ensures StatusOf(t, tasks) == StatusOf(u, tasks)
            || {StatusOf(t, tasks), StatusOf(u, tasks)} == {PENDING, STARTED}
  {
    StatusClosed(t, tasks);
    StatusClosed(u, tasks);
    assert t.steps == [] <==> u.steps == [] by {
      if t.steps != [] { assert t.steps[0] in u.steps; }
      if u.steps != [] { assert u.steps[0] in t.steps; }
    }
    SameStatuses(t, u, tasks);
    SameStatuses(u, t, tasks);
    StatusRange(t, tasks);
    StatusRange(u, tasks);
    assert DoneBeforePending(ChildStatuses(t, tasks)) ==> PENDING in ChildStatuses(t, tasks);
    assert DoneBeforePending(ChildStatuses(u, tasks)) ==> PENDING in ChildStatuses(u, tasks);
  }

  lemma {:induction false} SameStatuses(t: Tree, u: Tree, tasks: seq<Task>)
    requires forall c :: c in t.steps ==> c in u.steps
    ensures forall s :: s in ChildStatuses(t, tasks) ==> s in ChildStatuses(u, tasks)
  {
    forall s | s in ChildStatuses(t, tasks) ensures s in ChildStatuses(u, tasks) {
      var i :| 0 <= i < |t.steps| && ChildStatuses(t, tasks)[i] == s;
      assert t.steps[i] in u.steps;
      var j :| 0 <= j < |u.steps| && u.steps[j] == t.steps[i];
      assert ChildStatuses(u, tasks)[j] == s;
    }
  }

  /** It does make that difference: a finished child step before a pending one
      reads STARTED, the other way round PENDING. */
  lemma {:induction false} OrderDoesMatter(done: Tree, waiting: Tree, id: StepId, tasks: seq<Task>)
    requires StatusOf(done, tasks) == SUCCESS && StatusOf(waiting, tasks) == PENDING
    requires !AnyLive(tasks, id)
    ensures StatusOf(Node(id, 0, 0, false, [done, waiting]), tasks) == STARTED
    ensures StatusOf(Node(id, 0, 0, false, [waiting, done]), tasks) == PENDING
  {
    var t, u := Node(id, 0, 0, false, [done, waiting]), Node(id, 0, 0, false, [waiting, done]);
    StatusClosed(t, tasks);
    StatusClosed(u, tasks);
    assert ChildStatuses(t, tasks) == [SUCCESS, PENDING];
    assert ChildStatuses(u, tasks) == [PENDING, SUCCESS];
    assert [SUCCESS, PENDING][0] == SUCCESS && [SUCCESS, PENDING][1] == PENDING;
  }
}

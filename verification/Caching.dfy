/** When the cached status and progress of steps are right.

    A save clears the caches of the task's step and all its ancestors.  The
    result backend writes rows without a save; the clear follows only when the
    task returns.  `unseen` holds the steps written to in between. */
module Caching {
  import opened Rows
  import opened Attempts
  import opened Status
  import opened Progress
  import opened Tables

  type Cached<V> = map<StepId, V>

  /** Only steps of the tree are cached, and every cached value of a step with nothing
      unseen below it is the value computed from scratch. */
  ghost predicate Coherent(t: Tree, tasks: seq<Task>, status: Cached<State>, progress: Cached<real>, unseen: set<StepId>) {
    && status.Keys <= Ids(t) && progress.Keys <= Ids(t)
    && forall s :: Sub(s, t) && Ids(s) !! unseen ==>
         && (s.id in status ==> status[s.id] == StatusOf(s, tasks))
         && (s.id in progress ==> progress[s.id] == ProgressOf(s, tasks))
  }

  /******* Status and progress depend only on the rows of the subtree *******/

  ghost predicate SameRows(t: Tree, a: seq<Task>, b: seq<Task>) {
    && (forall i :: 0 <= i < |a| && InTree(a[i], t) ==> i < |b| && b[i] == a[i])
    && (forall i :: 0 <= i < |b| && InTree(b[i], t) ==> i < |a| && a[i] == b[i])
  }

  lemma {:induction false} SameRowsBelow(t: Tree, a: seq<Task>, b: seq<Task>, k: nat)
    requires SameRows(t, a, b) && k < |t.steps|
    ensures SameRows(t.steps[k], a, b)
  {
    assert forall r: Task :: InTree(r, t.steps[k]) ==> InTree(r, t);
  }

  lemma {:induction false} LiveFrame(t: Tree, a: seq<Task>, b: seq<Task>)
    requires SameRows(t, a, b)
    ensures AnyLive(a, t.id) ==> AnyLive(b, t.id)
    ensures AnyTask(a, t.id) ==> AnyTask(b, t.id)
    ensures forall s :: HasLive(a, t.id, s) ==> HasLive(b, t.id, s)
  {
    forall s | HasLive(a, t.id, s) ensures HasLive(b, t.id, s) {
      var i :| 0 <= i < |a| && LiveIn(a[i], t.id) && a[i].status == s;
      assert InTree(a[i], t) && LiveIn(b[i], t.id);
    }
    if i :| 0 <= i < |a| && LiveIn(a[i], t.id) { assert InTree(a[i], t) && LiveIn(b[i], t.id); }
    if i :| 0 <= i < |a| && a[i].step == Some(t.id) { assert InTree(a[i], t) && b[i].step == Some(t.id); }
  }

  lemma {:induction false} StatusFrame(t: Tree, a: seq<Task>, b: seq<Task>)
    requires SameRows(t, a, b)
    ensures StatusOf(t, a) == StatusOf(t, b)
  {
    LiveFrame(t, a, b);
    LiveFrame(t, b, a);
    forall k | 0 <= k < |t.steps| ensures StatusOf(t.steps[k], a) == StatusOf(t.steps[k], b) {
      SameRowsBelow(t, a, b, k);
      StatusFrame(t.steps[k], a, b);
    }
    assert ChildStatuses(t, a) == ChildStatuses(t, b);
    StatusClosed(t, a);
    StatusClosed(t, b);
  }

  lemma {:induction false} LiveProgressFrame(a: seq<Task>, b: seq<Task>, id: StepId)
    requires forall i :: 0 <= i < |a| && a[i].step == Some(id) ==> i < |b| && b[i] == a[i]
    requires forall i :: 0 <= i < |b| && b[i].step == Some(id) ==> i < |a| && a[i] == b[i]
    ensures LiveProgress(a, id) == LiveProgress(b, id)
    decreases |a| + |b|
  {
    if |a| > |b| {
      LiveProgressFrame(a[..|a| - 1], b, id);
    } else if |b| > |a| {
      LiveProgressFrame(a, b[..|b| - 1], id);
    } else if a != [] {
      LiveProgressFrame(a[..|a| - 1], b[..|b| - 1], id);
    }
  }

  lemma {:induction false} ProgressFrame(t: Tree, a: seq<Task>, b: seq<Task>)
    requires SameRows(t, a, b)
    ensures ProgressOf(t, a) == ProgressOf(t, b)
  {
    LiveFrame(t, a, b);
    LiveFrame(t, b, a);
    forall k | 0 <= k < |t.steps| ensures ProgressOf(t.steps[k], a) == ProgressOf(t.steps[k], b) {
      SameRowsBelow(t, a, b, k);
      ProgressFrame(t.steps[k], a, b);
    }
    assert ChildProgress(t, a) == ChildProgress(t, b);
    assert forall r: Task :: r.step == Some(t.id) ==> InTree(r, t);
    LiveProgressFrame(a, b, t.id);
    ProgressClosed(t, a);
    ProgressClosed(t, b);
  }

  /******* Saves, writes and reads *******/

  ghost predicate AtOrNowhere(r: Task, id: StepId) { r.step == None || r.step == Some(id) }

  /** The rows differ only in tasks of step `id`, or moved between it and no step. */
  ghost predicate SameExcept(a: seq<Task>, b: seq<Task>, id: StepId) {
    && (forall i :: 0 <= i < |a| && i < |b| ==> a[i] == b[i] || (AtOrNowhere(a[i], id) && AtOrNowhere(b[i], id)))
    && (forall i :: |b| <= i < |a| ==> AtOrNowhere(a[i], id))
    && (forall i :: |a| <= i < |b| ==> AtOrNowhere(b[i], id))
  }

  ghost function OnPath(t: Tree, id: StepId): set<StepId>
    requires id in Ids(t)
  {
    set x | x in PathTo(t, id)
  }

  /** A subtree without `id` does not meet the path to `id`. */
  lemma {:induction false} OffPath(s: Tree, t: Tree, id: StepId)
    requires WellFormed(t) && Sub(s, t) && id in Ids(t) && id !in Ids(s)
    ensures Ids(s) !! OnPath(t, id)
  {
    forall x | x in Ids(s) ensures x !in PathTo(t, id) {
      var d := StepWithId(s, x);
      SubTransitive(d, s, t);
      SubIds(d, s);
      OnPathIff(d, t, id);
    }
  }

  /** Changing tasks of a step and clearing the caches up its path keeps every
      cached value right, and nothing on that path is unseen any more. */
  lemma {:induction false} ClearKeepsCoherent(t: Tree, a: seq<Task>, b: seq<Task>, status: Cached<State>,
                                              progress: Cached<real>,
                                              unseen: set<StepId>, id: StepId)
    requires WellFormed(t) && id in Ids(t) && Coherent(t, a, status, progress, unseen) && SameExcept(a, b, id)
    ensures var path := OnPath(t, id);
            Coherent(t, b, status - path, progress - path, unseen - path)
  {
    var path := OnPath(t, id);
    forall s | Sub(s, t) && Ids(s) !! (unseen - path)
      ensures s.id in status - path ==> (status - path)[s.id] == StatusOf(s, b)
      ensures s.id in progress - path ==> (progress - path)[s.id] == ProgressOf(s, b)
    {
      OnPathIff(s, t, id);
      if id !in Ids(s) {
        OffPath(s, t, id);
        assert Ids(s) !! unseen;
        assert SameRows(s, a, b);
        StatusFrame(s, a, b);
        ProgressFrame(s, a, b);
      }
    }
  }

  /** A write without a clear leaves right whatever does not hold the written step. */
  lemma {:induction false} WriteUnseen(t: Tree, a: seq<Task>, b: seq<Task>, status: Cached<State>, progress: Cached<real>,
                                       unseen: set<StepId>, id: StepId)
    requires Coherent(t, a, status, progress, unseen) && SameExcept(a, b, id)
    ensures Coherent(t, b, status, progress, unseen + {id})
  {
    forall s | Sub(s, t) && Ids(s) !! unseen + {id}
      ensures s.id in status ==> status[s.id] == StatusOf(s, b)
      ensures s.id in progress ==> progress[s.id] == ProgressOf(s, b)
    {
      assert id !in Ids(s) && SameRows(s, a, b);
      StatusFrame(s, a, b);
      ProgressFrame(s, a, b);
    }
  }

  lemma {:induction false} SubUnique(s: Tree, r: Tree, t: Tree)
    requires WellFormed(t) && Sub(s, t) && Sub(r, t) && s.id == r.id
    ensures s == r
  {
    if s != t { SubOfKid(s, t); }
    if r != t { SubOfKid(r, t); }
    if s != t && r != t {
      var i :| 0 <= i < |t.steps| && Sub(s, t.steps[i]);
      var j :| 0 <= j < |t.steps| && Sub(r, t.steps[j]);
      SubIdIn(s, t.steps[i]);
      SubIdIn(r, t.steps[j]);
      SubUnique(s, r, t.steps[i]);
    }
  }

  lemma {:induction false} SubOfKid(s: Tree, t: Tree)
    requires WellFormed(t) && Sub(s, t) && s != t
    ensures s.id != t.id
  {
    var i :| 0 <= i < |t.steps| && Sub(s, t.steps[i]);
    SubIdIn(s, t.steps[i]);
  }

  /** Caching a computed status or progress keeps the caches right. */
  lemma {:induction false} StoreCoherent(t: Tree, tasks: seq<Task>, status: Cached<State>, progress: Cached<real>,
                                         unseen: set<StepId>, s: Tree, v: State, p: real)
    requires WellFormed(t) && Sub(s, t) && Coherent(t, tasks, status, progress, unseen)
    ensures (Ids(s) !! unseen ==> v == StatusOf(s, tasks)) ==> Coherent(t, tasks, status[s.id := v], progress, unseen)
    ensures (Ids(s) !! unseen ==> p == ProgressOf(s, tasks)) ==> Coherent(t, tasks, status, progress[s.id := p], unseen)
  {
    SubIdIn(s, t);
    forall r | Sub(r, t) && r.id == s.id ensures r == s { SubUnique(r, s, t); }
  }

  /** The window is real: a write that is not yet followed by a clear leaves a
      wrong status in the cache. */
  lemma {:induction false} StaleUntilReturn(r: Task, id: StepId)
    requires r.step == Some(id) && r.retried.None? && r.status == PENDING
    ensures var t := Node(id, 0, 0, false, []);
            var written := Report([r], r.celeryId, STARTED);
            && Coherent(t, [r], map[id := PENDING], map[], {})
            && !Coherent(t, written, map[id := PENDING], map[], {})
            && Coherent(t, written, map[id := PENDING], map[], {id})
  {
    var t := Node(id, 0, 0, false, []);
    var written := Report([r], r.celeryId, STARTED);
    assert LiveIn([r][0], id) && LiveIn(written[0], id);
    assert HasLive(written, id, STARTED);
    StatusClosed(t, [r]);
    StatusClosed(t, written);
    assert ChildStatuses(t, [r]) == [] && ChildStatuses(t, written) == [];
    assert Sub(t, t) && Ids(t) == {id};
    assert forall s :: Sub(s, t) ==> s == t;
  }
}

/** The per-step locks of status and progress readers and of returning tasks.

    A reader holds the locks of the steps it is inside of while it waits for the
    lock of a child step; a returning task takes the lock of one step only and
    clears the caches of the ancestors without their locks. */
module Locking {
  import opened Rows
  import opened Tables

  /** The locks a process holds, outermost first, and the one it waits for. */
  datatype Process = Process(reader: bool, held: seq<StepId>, want: Option<StepId>)

  ghost predicate IsChild(t: Tree, p: StepId, c: StepId) {
    exists d, i :: Sub(d, t) && d.id == p && 0 <= i < |d.steps| && d.steps[i].id == c
  }

  predicate Idle(p: Process) { p.held == [] && p.want == None }

  function Last(s: seq<StepId>): StepId
    requires s != []
  {
    s[|s| - 1]
  }

  predicate Free(ps: seq<Process>, s: StepId) {
    forall q :: 0 <= q < |ps| ==> s !in ps[q].held
  }

  /******* Moves *******/

  /** An idle process asks for the lock of some step. */
  ghost predicate Begin(t: Tree, a: Process, b: Process) {
    Idle(a) && b.held == [] && b.want.Some? && b.want.value in Ids(t)
  }

  /** It gets a lock that nobody holds, itself included. */
  ghost predicate Acquire(ps: seq<Process>, a: Process, b: Process) {
    a.want.Some? && Free(ps, a.want.value) && b == a.(held := a.held + [a.want.value], want := None)
  }

  /** A reader goes on to a child of the step it is in. */
  ghost predicate Descend(t: Tree, a: Process, b: Process) {
    a.reader && a.want == None && a.held != [] && b == a.(want := b.want)
    && b.want.Some? && IsChild(t, Last(a.held), b.want.value)
  }

  /** A process that waits for nothing releases its innermost lock. */
  ghost predicate Release(a: Process, b: Process) {
    a.want == None && a.held != [] && b == a.(held := a.held[..|a.held| - 1])
  }

  ghost predicate Move(t: Tree, ps: seq<Process>, i: nat, b: Process)
    requires i < |ps|
  {
    Begin(t, ps[i], b) || Acquire(ps, ps[i], b) || Descend(t, ps[i], b) || Release(ps[i], b)
  }

  ghost predicate Next(t: Tree, ps: seq<Process>, qs: seq<Process>) {
    exists i, b :: 0 <= i < |ps| && Move(t, ps, i, b) && qs == ps[i := b]
  }

  ghost predicate Behaviour(t: Tree, h: seq<seq<Process>>) {
    && h != [] && (forall i :: 0 <= i < |h[0]| ==> Idle(h[0][i]))
    && forall k :: 0 <= k < |h| - 1 ==> Next(t, h[k], h[k + 1])
  }

  /******* Invariant *******/

  /** Each process holds one downward path and waits for a child of its end; one that does not read
      has at most one lock to do with. */
  ghost predicate Downward(t: Tree, p: Process) {
    && (forall k :: 0 <= k < |p.held| ==> p.held[k] in Ids(t))
    && (forall k :: 0 < k < |p.held| ==> IsChild(t, p.held[k - 1], p.held[k]))
    && (p.want.Some? ==> p.want.value in Ids(t) && (p.held != [] ==> IsChild(t, Last(p.held), p.want.value)))
    && (!p.reader ==> |p.held| + (if p.want.Some? then 1 else 0) <= 1)
  }

  ghost predicate Exclusive(ps: seq<Process>) {
    forall i, j, s :: 0 <= i < |ps| && 0 <= j < |ps| && s in ps[i].held && s in ps[j].held ==> i == j
  }

  ghost predicate Inv(t: Tree, ps: seq<Process>) {
    (forall i :: 0 <= i < |ps| ==> Downward(t, ps[i])) && Exclusive(ps)
  }

  /** How deep a step lies. */
  ghost function Level(t: Tree, s: StepId): nat
    requires s in Ids(t)
  {
    |PathTo(t, s)|
  }

  lemma {:induction false} LevelBelow(t: Tree, i: nat, s: StepId)
    requires WellFormed(t) && i < |t.steps| && s in Ids(t.steps[i])
    ensures s in Ids(t) && Level(t, s) == 1 + Level(t.steps[i], s)
  {
    var k :| 0 <= k < |t.steps| && s in Ids(t.steps[k]) && PathTo(t, s) == [t.id] + PathTo(t.steps[k], s);
  }

  /** How deep the innermost lock of a process lies: the root counts 1, no lock 0. */
  ghost function Depth(t: Tree, p: Process): nat
    requires Downward(t, p)
  {
    if p.held == [] then 0 else Level(t, Last(p.held))
  }

  /** A child lies one level below its parent. */
  lemma {:induction false} LevelOfKid(t: Tree, d: Tree, i: nat)
    requires WellFormed(t) && Sub(d, t) && i < |d.steps|
    ensures d.id in Ids(t) && d.steps[i].id in Ids(t)
    ensures Level(t, d.steps[i].id) == Level(t, d.id) + 1
  {
    var c := d.steps[i];
    assert c.id in Ids(c) && d.id in Ids(d);
    if d == t {
      LevelBelow(t, i, c.id);
    } else {
      var k :| 0 <= k < |t.steps| && Sub(d, t.steps[k]);
      LevelOfKid(t.steps[k], d, i);
      LevelBelow(t, k, d.id);
      LevelBelow(t, k, c.id);
    }
  }

  lemma {:induction false} ChildLevel(t: Tree, p: StepId, c: StepId)
    requires WellFormed(t) && IsChild(t, p, c)
    ensures p in Ids(t) && c in Ids(t) && Level(t, c) == Level(t, p) + 1
  {
    var d, i :| Sub(d, t) && d.id == p && 0 <= i < |d.steps| && d.steps[i].id == c;
    LevelOfKid(t, d, i);
  }

  /** The end of a path is the deepest lock on it. */
  lemma {:induction false} EndDeepest(t: Tree, p: Process, k: nat)
    requires WellFormed(t) && Downward(t, p) && k < |p.held|
    ensures Level(t, p.held[k]) <= Level(t, Last(p.held))
    decreases |p.held| - k
  {
    if k + 1 < |p.held| {
      ChildLevel(t, p.held[k], p.held[k + 1]);
      EndDeepest(t, p, k + 1);
    }
  }

  lemma {:induction false} MoveDownward(t: Tree, ps: seq<Process>, i: nat, b: Process)
    requires WellFormed(t) && i < |ps| && Downward(t, ps[i]) && Move(t, ps, i, b)
    ensures Downward(t, b)
  {
    var a := ps[i];
    if Descend(t, a, b) {
      var d, k :| Sub(d, t) && d.id == Last(a.held) && 0 <= k < |d.steps| && d.steps[k].id == b.want.value;
      LevelOfKid(t, d, k);
    }
  }

  lemma {:induction false} MoveKeeps(t: Tree, ps: seq<Process>, i: nat, b: Process)
    requires WellFormed(t) && Inv(t, ps) && i < |ps| && Move(t, ps, i, b)
    ensures Inv(t, ps[i := b])
  {
    var a := ps[i];
    MoveDownward(t, ps, i, b);
    if Acquire(ps, a, b) {
      assert forall s :: s in b.held <==> s in a.held || s == a.want.value;
    } else {
      assert forall s :: s in b.held ==> s in a.held;
    }
  }

  lemma {:induction false} AlwaysInv(t: Tree, h: seq<seq<Process>>, n: nat)
    requires WellFormed(t) && Behaviour(t, h) && n < |h|
    ensures Inv(t, h[n])
  {
    if n > 0 {
      AlwaysInv(t, h, n - 1);
      assert Next(t, h[n - 1], h[n - 1 + 1]);
      var i, b :| 0 <= i < |h[n - 1]| && Move(t, h[n - 1], i, b) && h[n] == h[n - 1][i := b];
      MoveKeeps(t, h[n - 1], i, b);
    }
  }

  /******* No deadlock *******/

  /** Process `i` waits for a lock that process `j` holds. */
  ghost predicate WaitsFor(ps: seq<Process>, i: nat, j: nat) {
    i < |ps| && j < |ps| && ps[i].want.Some? && ps[i].want.value in ps[j].held
  }

  /** Whoever holds the lock that a holding process waits for is deeper in the tree. */
  lemma {:induction false} WaitsDeeper(t: Tree, ps: seq<Process>, i: nat, j: nat)
    requires WellFormed(t) && Inv(t, ps) && WaitsFor(ps, i, j) && ps[i].held != []
    ensures ps[j].held != [] && Level(t, Last(ps[i].held)) < Level(t, Last(ps[j].held))
  {
    ChildLevel(t, Last(ps[i].held), ps[i].want.value);
    var k :| 0 <= k < |ps[j].held| && ps[j].held[k] == ps[i].want.value;
    EndDeepest(t, ps[j], k);
  }

  /** A chain of waiting processes: each waits for the next. */
  ghost predicate WaitChain(ps: seq<Process>, c: seq<nat>) {
    && |c| >= 2
    && (forall k :: 0 <= k < |c| ==> c[k] < |ps| && ps[c[k]].held != [])
    && (forall k :: 0 < k < |c| ==> WaitsFor(ps, c[k - 1], c[k]))
  }

  lemma {:induction false} ChainDeeper(t: Tree, ps: seq<Process>, c: seq<nat>)
    requires WellFormed(t) && Inv(t, ps) && WaitChain(ps, c)
    ensures Level(t, Last(ps[c[0]].held)) < Level(t, Last(ps[c[|c| - 1]].held))
  {
    var n := |c| - 1;
    assert WaitsFor(ps, c[n - 1], c[n]);
    WaitsDeeper(t, ps, c[n - 1], c[n]);
    if n > 1 { ChainDeeper(t, ps, c[..n]); }
  }

  /** In no reachable state is there a cycle of processes waiting for each other. */
  lemma {:induction false} NoWaitCycle(t: Tree, h: seq<seq<Process>>, n: nat, c: seq<nat>)
    requires WellFormed(t) && Behaviour(t, h) && n < |h| && WaitChain(h[n], c)
    ensures c[0] != c[|c| - 1]
  {
    AlwaysInv(t, h, n);
    ChainDeeper(t, h[n], c);
  }

  /** The process gets a lock or gives one back. */
  ghost predicate Drains(ps: seq<Process>, i: nat, b: Process) {
    i < |ps| && (Acquire(ps, ps[i], b) || Release(ps[i], b))
  }

  ghost predicate CanMove(ps: seq<Process>, i: nat) {
    i < |ps| && !Idle(ps[i]) && exists b :: Drains(ps, i, b)
  }

  /** A busy process that waits for nobody can move. */
  lemma {:induction false} UnblockedMoves(ps: seq<Process>, i: nat)
    requires i < |ps| && !Idle(ps[i]) && forall j :: !WaitsFor(ps, i, j)
    ensures CanMove(ps, i)
  {
    var a := ps[i];
    if a.want == None {
      assert Drains(ps, i, a.(held := a.held[..|a.held| - 1]));
    } else {
      forall q | 0 <= q < |ps| ensures a.want.value !in ps[q].held { assert !WaitsFor(ps, i, q); }
      assert Drains(ps, i, a.(held := a.held + [a.want.value], want := None));
    }
  }

  /** Following the waits from process `i` leads to one that can move. */
  lemma {:induction false} FollowWaits(t: Tree, ps: seq<Process>, i: nat, bound: nat) returns (m: nat)
    requires WellFormed(t) && Inv(t, ps) && i < |ps| && !Idle(ps[i])
    requires forall j :: 0 <= j < |ps| ==> Depth(t, ps[j]) <= bound
    ensures CanMove(ps, m)
    decreases bound - Depth(t, ps[i])
  {
    if j :| WaitsFor(ps, i, j) {
      if ps[i].held != [] { WaitsDeeper(t, ps, i, j); }
      m := FollowWaits(t, ps, j, bound);
    } else {
      UnblockedMoves(ps, i);
      m := i;
    }
  }

  lemma {:induction false} Bounded(t: Tree, ps: seq<Process>) returns (bound: nat)
    requires forall i :: 0 <= i < |ps| ==> Downward(t, ps[i])
    ensures forall j :: 0 <= j < |ps| ==> Depth(t, ps[j]) <= bound
  {
    bound := 0;
    if ps != [] {
      var n := |ps| - 1;
      bound := Bounded(t, ps[..n]);
      if Depth(t, ps[n]) > bound { bound := Depth(t, ps[n]); }
    }
  }

  /** In every reachable state with a busy process, some busy process can get a lock or
      give one back. */
  lemma {:induction false} NeverStuck(t: Tree, h: seq<seq<Process>>, n: nat, i: nat) returns (m: nat)
    requires WellFormed(t) && Behaviour(t, h) && n < |h| && i < |h[n]| && !Idle(h[n][i])
    ensures CanMove(h[n], m)
  {
    AlwaysInv(t, h, n);
    var bound := Bounded(t, h[n]);
    m := FollowWaits(t, h[n], i, bound);
  }

  /******* Finishing *******/

  /** What a process still has to do if it asks for nothing more. */
  function Work(p: Process): nat { 2 * |p.held| + if p.want.Some? then 3 else 0 }

  function TotalWork(ps: seq<Process>): nat {
    if ps == [] then 0 else TotalWork(ps[..|ps| - 1]) + Work(ps[|ps| - 1])
  }

  lemma {:induction false} WorkSet(ps: seq<Process>, i: nat, b: Process)
    requires i < |ps|
    ensures TotalWork(ps[i := b]) == TotalWork(ps) - Work(ps[i]) + Work(b)
  {
    var n := |ps| - 1;
    if i == n {
      assert ps[i := b][..n] == ps[..n];
    } else {
      assert ps[i := b][..n] == ps[..n][i := b];
      WorkSet(ps[..n], i, b);
    }
  }

  /** From state `n` on, locks are only taken that were asked for, and given back. */
  ghost predicate DrainsFrom(h: seq<seq<Process>>, n: nat) {
    forall k :: n <= k < |h| - 1 ==> DrainStep(h[k], h[k + 1])
  }

  ghost predicate DrainStep(ps: seq<Process>, qs: seq<Process>) {
    exists i: nat, b :: Drains(ps, i, b) && qs == ps[i := b]
  }

  lemma {:induction false} DrainStepWorks(ps: seq<Process>, qs: seq<Process>)
    requires DrainStep(ps, qs)
    ensures TotalWork(qs) < TotalWork(ps)
  {
    var i: nat, b :| Drains(ps, i, b) && qs == ps[i := b];
    WorkSet(ps, i, b);
  }

  /** Once no process asks for more, whatever the schedule, there is a last step. */
  lemma {:induction false} DrainEnds(h: seq<seq<Process>>, n: nat)
    requires n < |h| && DrainsFrom(h, n)
    ensures |h| - 1 - n + TotalWork(h[|h| - 1]) <= TotalWork(h[n])
    decreases |h| - n
  {
    if n + 1 < |h| {
      assert DrainStep(h[n], h[n + 1]);
      DrainStepWorks(h[n], h[n + 1]);
      DrainEnds(h, n + 1);
    }
  }

  predicate AllIdle(ps: seq<Process>) { forall p :: p in ps ==> Idle(p) }

  /** And when there is no further step to take, every process has finished. So every
      reachable state can be brought to where all are idle. */
  lemma {:induction false} AlwaysFinishes(t: Tree, h: seq<seq<Process>>) returns (h': seq<seq<Process>>)
    requires WellFormed(t) && Behaviour(t, h)
    ensures Behaviour(t, h') && h <= h' && DrainsFrom(h', |h| - 1)
    ensures AllIdle(h'[|h'| - 1])
    decreases TotalWork(h[|h| - 1])
  {
    var ps := h[|h| - 1];
    h' := h;
    if !AllIdle(ps) {
      var i :| 0 <= i < |ps| && !Idle(ps[i]);
      var m := NeverStuck(t, h, |h| - 1, i);
      var b :| Drains(ps, m, b);
      var h1 := h + [ps[m := b]];
      assert Move(t, ps, m, b) && DrainStep(ps, ps[m := b]);
      forall k | 0 <= k < |h1| - 1 ensures Next(t, h1[k], h1[k + 1]) {
        if k < |h| - 1 { assert Next(t, h[k], h[k + 1]); }
      }
      DrainStepWorks(ps, ps[m := b]);
      h' := AlwaysFinishes(t, h1);
      forall k | |h| - 1 <= k < |h'| - 1 ensures DrainStep(h'[k], h'[k + 1]) {
        if k == |h| - 1 { assert h'[k] == h1[k] && h'[k + 1] == h1[k + 1]; }
      }
    }
  }
}

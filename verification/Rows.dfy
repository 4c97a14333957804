/** The rows of the workflow engine: tasks, steps, the step tree they form, and
    the ordered queries the engine runs over them.

    A table is a sequence and a row number is a primary key.  Task rows are
    never deleted.  A step table row refers to its parent; `Tree` is the tree
    those references form. */
module Rows {

  datatype Option<+T> = None | Some(value: T)

  type StepId = nat
  type TaskId = nat
  type Uuid = nat

  datatype State =
    | PENDING | RECEIVED | STARTED | SUCCESS | FAILURE | REVOKED
    | REJECTED | RETRY | IGNORED | PREPARED

  /** What a task runs: everything a retry copies besides step and position. */
  datatype Work = Work(name: string, args: string, params: string, resultParams: string)

  datatype Task = Task(
    step: Option<StepId>, work: Work, pos: int, created: nat,
    status: State, celeryId: Uuid, progress: int, retried: Option<TaskId>)

  /** The tasks that stand in `on_error` of a step. */
  type OnError = map<StepId, set<TaskId>>

  /** A process step with its child steps, in the order of the step table. */
  datatype Tree = Node(id: StepId, pos: int, created: nat, parallel: bool, steps: seq<Tree>)

  /******* Trees *******/

  function Ids(t: Tree): set<StepId> {
    {t.id} + set i, x | 0 <= i < |t.steps| && x in Ids(t.steps[i]) :: x
  }

  /** No step occurs twice. */
  ghost predicate WellFormed(t: Tree) {
    && (forall i :: 0 <= i < |t.steps| ==> WellFormed(t.steps[i]) && t.id !in Ids(t.steps[i]))
    && (forall i, j :: 0 <= i < |t.steps| && 0 <= j < |t.steps| && i != j ==> Ids(t.steps[i]) !! Ids(t.steps[j]))
  }

  /** `s` is `t` or one of its descendants. */
  ghost predicate Sub(s: Tree, t: Tree) {
    s == t || exists i :: 0 <= i < |t.steps| && Sub(s, t.steps[i])
  }

  /** The position among `ts` of the step `id`. */
  function IndexOf(ts: seq<Tree>, id: StepId): (i: nat)
    requires exists k :: 0 <= k < |ts| && ts[k].id == id
    ensures i < |ts| && ts[i].id == id
  {
    if ts[|ts| - 1].id == id then |ts| - 1 else IndexOf(ts[..|ts| - 1], id)
  }

  lemma {:induction false} SubIds(s: Tree, t: Tree)
    requires Sub(s, t)
    ensures Ids(s) <= Ids(t)
    ensures WellFormed(t) ==> WellFormed(s)
  {
    if s != t {
      var i :| 0 <= i < |t.steps| && Sub(s, t.steps[i]);
      SubIds(s, t.steps[i]);
    }
  }

  lemma {:induction false} SubTransitive(r: Tree, s: Tree, t: Tree)
    requires Sub(r, s) && Sub(s, t)
    ensures Sub(r, t)
  {
    if s != t {
      var i :| 0 <= i < |t.steps| && Sub(s, t.steps[i]);
      SubTransitive(r, s, t.steps[i]);
    }
  }

  lemma {:induction false} StepWithId(t: Tree, id: StepId) returns (d: Tree)
    requires id in Ids(t)
    ensures Sub(d, t) && d.id == id
  {
    if id == t.id { return t; }
    var i :| 0 <= i < |t.steps| && id in Ids(t.steps[i]);
    d := StepWithId(t.steps[i], id);
  }

  lemma {:induction false} SubIdIn(d: Tree, t: Tree)
    requires Sub(d, t)
    ensures d.id in Ids(t)
  {
    SubIds(d, t);
    assert d.id in Ids(d);
  }

  /******* Task queries *******/

  predicate InTree(r: Task, t: Tree) { r.step.Some? && r.step.value in Ids(t) }

  function Pending(tasks: seq<Task>): set<TaskId> {
    set i | 0 <= i < |tasks| && tasks[i].status == PENDING
  }

  /** The tasks that no retry has replaced. */
  function Live(tasks: seq<Task>): set<TaskId> {
    set i | 0 <= i < |tasks| && tasks[i].retried.None?
  }

  /** The rows of `sel` that belong to step `id`, by row number. */
  function Own(tasks: seq<Task>, id: StepId, sel: set<TaskId>): (rows: seq<TaskId>)
    ensures forall i: nat :: i in rows <==> i < |tasks| && tasks[i].step == Some(id) && i in sel
    ensures forall k, l :: 0 <= k < l < |rows| ==> rows[k] < rows[l]
  {
    if tasks == [] then []
    else
      var n := |tasks| - 1;
      var rest := Own(tasks[..n], id, sel);
      assert forall k :: 0 <= k < |rest| ==> rest[k] in rest;
      if tasks[n].step == Some(id) && n in sel then rest + [n] else rest
  }

  /** Some row of `sel` belongs to the subtree of `t`. */
  predicate AnyIn(tasks: seq<Task>, t: Tree, sel: set<TaskId>) {
    exists i :: 0 <= i < |tasks| && InTree(tasks[i], t) && i in sel
  }

  /******* The order of the children of a step *******/

  /** A child of a step, by its sort key: a task row or a child step. */
  datatype Child = Child(pos: int, created: nat, isTask: bool, row: nat)

  /** The order of the sorted result list: position, then creation time.  The
      sort is stable and its input is the child steps followed by the tasks, each
      in row order, so ties are broken that way. */
  predicate Before(a: Child, b: Child) {
    || a.pos < b.pos
    || (a.pos == b.pos && a.created < b.created)
    || (a.pos == b.pos && a.created == b.created && !a.isTask && b.isTask)
    || (a.pos == b.pos && a.created == b.created && a.isTask == b.isTask && a.row < b.row)
  }

  ghost predicate Sorted(xs: seq<Child>) {
    forall i, j :: 0 <= i < j < |xs| ==> Before(xs[i], xs[j])
  }

  ghost predicate Distinct<T>(xs: seq<T>) {
    forall i, j :: 0 <= i < j < |xs| ==> xs[i] != xs[j]
  }

  lemma {:induction false} DistinctConcat<T>(a: seq<T>, b: seq<T>)
    requires Distinct(a + b)
    ensures Distinct(a) && Distinct(b)
    ensures forall x :: !(x in a && x in b)
  {
    var ab := a + b;
    assert forall k :: 0 <= k < |a| ==> ab[k] == a[k];
    assert forall k :: 0 <= k < |b| ==> ab[|a| + k] == b[k];
  }

  function Insert(x: Child, xs: seq<Child>): (r: seq<Child>)
    ensures forall c :: c in r <==> c == x || c in xs
    ensures Sorted(xs) && x !in xs ==> Sorted(r)
  {
    if xs == [] then [x]
    else if Before(xs[|xs| - 1], x) then xs + [x]
    else
      var r := Insert(x, xs[..|xs| - 1]);
      assert forall k :: 0 <= k < |r| ==> r[k] in r;
      r + [xs[|xs| - 1]]
  }

  function Sort(xs: seq<Child>): (r: seq<Child>)
    ensures forall c :: c in r <==> c in xs
    ensures Distinct(xs) ==> Sorted(r)
  {
    if xs == [] then [] else Insert(xs[|xs| - 1], Sort(xs[..|xs| - 1]))
  }

  /** There is only one way to sort a set of children. */
  lemma {:induction false} SortedUnique(xs: seq<Child>, ys: seq<Child>)
    requires Sorted(xs) && Sorted(ys)
    requires forall c :: c in xs <==> c in ys
    ensures xs == ys
  {
    if xs == [] {
      assert forall k :: 0 <= k < |ys| ==> ys[k] in xs;
    } else {
      assert xs[|xs| - 1] in ys;
      var n, m := |xs| - 1, |ys| - 1;
      var k :| 0 <= k < |ys| && ys[k] == xs[n];
      assert ys[m] in xs;
      assert xs[n] == ys[m];
      forall c ensures c in xs[..n] <==> c in ys[..m] {
        if c in xs[..n] { assert c in ys && c != ys[m]; }
        if c in ys[..m] { assert c in xs && c != xs[n]; }
      }
      SortedUnique(xs[..n], ys[..m]);
    }
  }

  function StepItem(t: Tree): Child { Child(t.pos, t.created, false, t.id) }

  function StepItems(ts: seq<Tree>): seq<Child> {
    seq(|ts|, i requires 0 <= i < |ts| => StepItem(ts[i]))
  }

  function TaskItem(tasks: seq<Task>, i: TaskId): Child
    requires i < |tasks|
  {
    Child(tasks[i].pos, tasks[i].created, true, i)
  }

  function TaskItems(tasks: seq<Task>, rows: seq<TaskId>): seq<Child>
    requires forall i: nat :: i in rows ==> i < |tasks|
  {
    seq(|rows|, k requires 0 <= k < |rows| && rows[k] in rows => TaskItem(tasks, rows[k]))
  }

  /** The child steps and the tasks of `sel` of step `t`, in execution order. */
  function ResultList(t: Tree, tasks: seq<Task>, sel: set<TaskId>): (items: seq<Child>)
    ensures forall c :: c in items <==> IsItem(t, tasks, sel, c)
    ensures WellFormed(t) ==> Sorted(items)
  {
    var rows := Own(tasks, t.id, sel);
    var all := StepItems(t.steps) + TaskItems(tasks, rows);
    assert forall c :: c in all <==> IsItem(t, tasks, sel, c) by {
      forall c | IsItem(t, tasks, sel, c) ensures c in all { ItemListed(t, tasks, sel, c); }
    }
    assert WellFormed(t) ==> Distinct(all);
    Sort(all)
  }

  predicate IsItem(t: Tree, tasks: seq<Task>, sel: set<TaskId>, c: Child) {
    if c.isTask then
      c.row < |tasks| && tasks[c.row].step == Some(t.id) && c.row in sel && c == TaskItem(tasks, c.row)
    else
      exists i :: 0 <= i < |t.steps| && c == StepItem(t.steps[i])
  }

  lemma {:induction false} ItemListed(t: Tree, tasks: seq<Task>, sel: set<TaskId>, c: Child)
    requires IsItem(t, tasks, sel, c)
    ensures c in StepItems(t.steps) + TaskItems(tasks, Own(tasks, t.id, sel))
  {
    var rows := Own(tasks, t.id, sel);
    if c.isTask {
      assert c.row in rows;
      var k :| 0 <= k < |rows| && rows[k] == c.row;
      assert TaskItems(tasks, rows)[k] == c;
    } else {
      var i :| 0 <= i < |t.steps| && c == StepItem(t.steps[i]);
      assert StepItems(t.steps)[i] == c;
    }
  }

  lemma {:induction false} Smaller<T>(a: set<T>, b: set<T>)
    requires a <= b
    ensures |a| <= |b|
    decreases a
  {
    if a != {} {
      var x :| x in a;
      Smaller(a - {x}, b - {x});
    }
  }
}

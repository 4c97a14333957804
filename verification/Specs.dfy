/** Workflow specifications and the rows they become. */
module Specs {
  import opened Rows
  import opened Pruning

  /** An entry of a workflow specification.  `enabled` is its `if`, and `onError`
      what it names for error handling. */
  datatype Entry =
    | StepEntry(enabled: bool, parallel: bool, children: seq<Entry>, onError: seq<Work>)
    | TaskEntry(enabled: bool, work: Work, onError: seq<Work>)

  /** The tables while a workflow is created: the next step row, the task rows,
      the clock, and the next task id. */
  datatype Db = Db(steps: StepId, tasks: seq<Task>, clock: nat, ids: Uuid)

  datatype Built = Built(kids: seq<Tree>, db: Db)

  function AddTask(step: StepId, work: Work, pos: int, status: State, progress: int, db: Db): Db {
    db.(tasks := db.tasks + [Task(Some(step), work, pos, db.clock, status, db.ids, progress, None)],
        clock := db.clock + 1, ids := db.ids + 1)
  }

  /** The error tasks of a step: rows of that step, at positions from 0. */
  function AddErrors(errors: seq<Work>, step: StepId, status: State, db: Db): Db {
    if errors == [] then db
    else
      var n := |errors| - 1;
      AddTask(step, errors[n], n, status, if status == SUCCESS then 100 else 0, AddErrors(errors[..n], step, status, db))
  }

  /** Create the child steps and tasks of `parent` from `flow`, in order. */
  function CreateFlow(flow: seq<Entry>, parent: StepId, db: Db): Built
    decreases flow, 0
  {
    if flow == [] then Built([], db)
    else
      var n := |flow| - 1;
      var before := CreateFlow(flow[..n], parent, db);
      var made := CreateEntry(flow[n], n, parent, before.db);
      Built(before.kids + made.kids, made.db)
  }

  function CreateEntry(e: Entry, index: nat, parent: StepId, db: Db): Built
    decreases e, 1
  {
    if !e.enabled then Built([], db)
    else
      match e
      case TaskEntry(_, work, onError) =>
        Built([], AddErrors(onError, parent, PENDING, AddTask(parent, work, index, PENDING, 0, db)))
      case StepEntry(_, parallel, children, onError) =>
        if children == [] then Built([], db)
        else
          var started := db.(steps := db.steps + 1, clock := db.clock + 1);
          var below := CreateFlow(children, db.steps, AddErrors(onError, db.steps, PENDING, started));
          Built([Node(db.steps, index, db.clock, parallel, below.kids)], below.db)
  }

  datatype Workflow = Workflow(root: Tree, db: Db)

  /** Create the root step, its error tasks, which are stored as done, and the
      steps and tasks of the specification. */
  function CreateWorkflow(spec: seq<Entry>, onError: seq<Work>, db: Db): Workflow {
    var started := db.(steps := db.steps + 1, clock := db.clock + 1);
    var below := CreateFlow(spec, db.steps, AddErrors(onError, db.steps, SUCCESS, started));
    Workflow(Node(db.steps, 0, db.clock, false, below.kids), below.db)
  }

  /** The error tasks of the created steps.  Those of a task are linked only when the task
      is run on its own. */
  function FlowErrors(flow: seq<Entry>, parent: StepId, db: Db): OnError
    decreases flow, 0
  {
    if flow == [] then map[]
    else
      var n := |flow| - 1;
      FlowErrors(flow[..n], parent, db) + EntryErrors(flow[n], CreateFlow(flow[..n], parent, db).db)
  }

  function EntryErrors(e: Entry, db: Db): OnError
    decreases e, 1
  {
    if !e.enabled || e.TaskEntry? || e.children == [] then map[]
    else
      var started := db.(steps := db.steps + 1, clock := db.clock + 1);
      FilledErrors(e.children, e.onError, db.steps, PENDING, started)
  }

  /** The error tasks of step `d`, and those of the steps made below it. */
  function FilledErrors(flow: seq<Entry>, onError: seq<Work>, d: StepId, status: State, db: Db): OnError
    decreases flow, 1
  {
    var filled := AddErrors(onError, d, status, db);
    FlowErrors(flow, d, filled)[d := NewRows(filled.tasks, |db.tasks|, d)]
  }

  /** The rows of step `d` from row `from` on. */
  function NewRows(tasks: seq<Task>, from: nat, d: StepId): set<TaskId> {
    set i: nat | from <= i < |tasks| && tasks[i].step == Some(d)
  }

  function WorkflowErrors(spec: seq<Entry>, onError: seq<Work>, db: Db): OnError {
    FilledErrors(spec, onError, db.steps, SUCCESS, db.(steps := db.steps + 1, clock := db.clock + 1))
  }

  /** The enabled tasks of a specification, read left to right. */
  function Enabled(flow: seq<Entry>): seq<Work>
    decreases flow, 0
  {
    if flow == [] then [] else Enabled(flow[..|flow| - 1]) + EnabledIn(flow[|flow| - 1])
  }

  function EnabledIn(e: Entry): seq<Work>
    decreases e, 1
  {
    if !e.enabled then []
    else
      match e
      case TaskEntry(_, work, _) => [work]
      case StepEntry(_, _, children, _) => Enabled(children)
  }

  /** How many error tasks the created entries name. */
  function Errors(flow: seq<Entry>): nat
    decreases flow, 0
  {
    if flow == [] then 0 else Errors(flow[..|flow| - 1]) + ErrorsIn(flow[|flow| - 1])
  }

  function ErrorsIn(e: Entry): nat
    decreases e, 1
  {
    if !e.enabled then 0
    else
      match e
      case TaskEntry(_, _, onError) => |onError|
      case StepEntry(_, _, children, onError) => if children == [] then 0 else |onError| + Errors(children)
  }

  /******* What creation leaves behind *******/

  /** Between `lo` and `hi` the trees `kids` were made under `parent`: new steps,
      new pending tasks in them or in `parent`, and nothing else. */
  ghost predicate Made(parent: StepId, lo: Db, kids: seq<Tree>, hi: Db, width: nat) {
    && parent < lo.steps <= hi.steps && lo.clock <= hi.clock && lo.ids <= hi.ids
    && lo.tasks <= hi.tasks
    && AllWellFormed(kids)
    && (forall x :: x in IdsOf(kids) ==> lo.steps <= x < hi.steps)
    && (forall k :: 0 <= k < |kids| ==> 0 <= kids[k].pos < width)
    && (forall i :: |lo.tasks| <= i < |hi.tasks| ==>
          && hi.tasks[i].status == PENDING && hi.tasks[i].step.Some?
          && (hi.tasks[i].step.value == parent || hi.tasks[i].step.value in IdsOf(kids)))
  }

  lemma {:induction false} AddErrorsMade(errors: seq<Work>, step: StepId, status: State, db: Db)
    ensures var hi := AddErrors(errors, step, status, db);
            && hi.steps == db.steps && db.clock <= hi.clock && db.ids <= hi.ids && db.tasks <= hi.tasks
            && |hi.tasks| == |db.tasks| + |errors|
            && forall i :: |db.tasks| <= i < |hi.tasks| ==> hi.tasks[i].status == status && hi.tasks[i].step == Some(step)
  {
    if errors != [] { AddErrorsMade(errors[..|errors| - 1], step, status, db); }
  }

  lemma {:induction false} Concat(a: seq<Tree>, b: seq<Tree>)
    requires AllWellFormed(a) && AllWellFormed(b) && IdsOf(a) !! IdsOf(b)
    ensures IdsOf(a + b) == IdsOf(a) + IdsOf(b)
    ensures AllWellFormed(a + b)
    decreases |b|
  {
    if b == [] {
      assert a + b == a && IdsOf(b) == {};
    } else {
      var c, d := b[..|b| - 1], b[|b| - 1];
      assert b == c + [d] && a + b == (a + c) + [d];
      IdsOfSnoc(c, d);
      AllWellFormedSnoc(c, d);
      Concat(a, c);
      IdsOfSnoc(a + c, d);
      AllWellFormedSnoc(a + c, d);
    }
  }

  lemma {:induction false} MadeThen(parent: StepId, lo: Db, a: seq<Tree>, mid: Db, b: seq<Tree>, hi: Db, m: nat, n: nat)
    requires Made(parent, lo, a, mid, m) && Made(parent, mid, b, hi, n) && m <= n
    ensures Made(parent, lo, a + b, hi, n)
  {
    Concat(a, b);
    forall i | |lo.tasks| <= i < |hi.tasks|
      ensures hi.tasks[i].status == PENDING && hi.tasks[i].step.Some?
      ensures hi.tasks[i].step.value == parent || hi.tasks[i].step.value in IdsOf(a + b)
    {
      if i < |mid.tasks| { assert hi.tasks[i] == mid.tasks[i]; }
    }
  }

  lemma {:induction false} FlowMade(flow: seq<Entry>, parent: StepId, db: Db)
    requires parent < db.steps
    ensures var b := CreateFlow(flow, parent, db);
            && Made(parent, db, b.kids, b.db, |flow|)
            && |b.db.tasks| == |db.tasks| + |Enabled(flow)| + Errors(flow)
    decreases flow, 0
  {
    if flow == [] {
      assert IdsOf([]) == {};
    } else {
      var n := |flow| - 1;
      var before := CreateFlow(flow[..n], parent, db);
      FlowMade(flow[..n], parent, db);
      EntryMade(flow[n], n, parent, before.db);
      var made := CreateEntry(flow[n], n, parent, before.db);
      MadeThen(parent, db, before.kids, before.db, made.kids, made.db, n, n + 1);
    }
  }

  lemma {:induction false} EntryMade(e: Entry, index: nat, parent: StepId, db: Db)
    requires parent < db.steps
    ensures var b := CreateEntry(e, index, parent, db);
            && Made(parent, db, b.kids, b.db, index + 1)
            && |b.db.tasks| == |db.tasks| + |EnabledIn(e)| + ErrorsIn(e)
    decreases e, 1
  {
    assert IdsOf([]) == {};
    if e.enabled {
      match e
      case TaskEntry(_, work, onError) =>
        AddErrorsMade(onError, parent, PENDING, AddTask(parent, work, index, PENDING, 0, db));
      case StepEntry(_, parallel, children, onError) =>
        if children == [] {
          assert Enabled(children) == [];
        } else {
          StepMade(index, parallel, children, onError, parent, db);
        }
    }
  }

  lemma {:induction false} Single(t: Tree)
    ensures IdsOf([t]) == Ids(t) && (AllWellFormed([t]) <==> WellFormed(t))
  {
    assert [] + [t] == [t] && IdsOf([]) == {};
    IdsOfSnoc([], t);
    AllWellFormedSnoc([], t);
  }

  lemma {:induction false} StepMade(index: nat, parallel: bool, children: seq<Entry>, onError: seq<Work>,
                                    parent: StepId, db: Db)
    requires parent < db.steps && children != []
    ensures var b := CreateEntry(StepEntry(true, parallel, children, onError), index, parent, db);
            && Made(parent, db, b.kids, b.db, index + 1)
            && |b.db.tasks| == |db.tasks| + |Enabled(children)| + |onError| + Errors(children)
    decreases children, 1
  {
    var started := db.(steps := db.steps + 1, clock := db.clock + 1);
    var filled := AddErrors(onError, db.steps, PENDING, started);
    AddErrorsMade(onError, db.steps, PENDING, started);
    FlowMade(children, db.steps, filled);
    var below := CreateFlow(children, db.steps, filled);
    var kid := Node(db.steps, index, db.clock, parallel, below.kids);
    assert CreateEntry(StepEntry(true, parallel, children, onError), index, parent, db) == Built([kid], below.db);
    KidMade(kid, parent, db, filled, below.db, |children|);
  }

  lemma {:induction false} KidMade(kid: Tree, parent: StepId, db: Db, filled: Db, hi: Db, width: nat)
    requires parent < db.steps == kid.id && 0 <= kid.pos && Made(kid.id, filled, kid.steps, hi, width)
    requires db.tasks <= filled.tasks && db.clock <= filled.clock && db.ids <= filled.ids && filled.steps == kid.id + 1
    requires forall i :: |db.tasks| <= i < |filled.tasks| ==>
               filled.tasks[i].status == PENDING && filled.tasks[i].step == Some(kid.id)
    ensures Made(parent, db, [kid], hi, kid.pos + 1)
  {
    WellFormedSplit(kid);
    IdsSplit(kid);
    Single(kid);
    forall i | |db.tasks| <= i < |hi.tasks|
      ensures hi.tasks[i].status == PENDING && hi.tasks[i].step.Some?
      ensures hi.tasks[i].step.value in IdsOf([kid])
    {
      if i < |filled.tasks| { assert hi.tasks[i] == filled.tasks[i]; }
    }
  }

  /** The entry becomes a step. */
  predicate Stands(e: Entry) { e.StepEntry? && e.enabled && e.children != [] }

  /** The steps stand in the order of the specification: each at the index of its entry,
      one for every entry that becomes a step. */
  ghost predicate InFlowOrder(flow: seq<Entry>, kids: seq<Tree>) {
    && (forall j, k :: 0 <= j < k < |kids| ==> kids[j].pos < kids[k].pos)
    && (forall k :: 0 <= k < |kids| ==> At(flow, kids[k]))
    && (forall i :: 0 <= i < |flow| && Stands(flow[i]) ==> Found(kids, i))
  }

  ghost predicate At(flow: seq<Entry>, kid: Tree) {
    0 <= kid.pos < |flow| && Stands(flow[kid.pos]) && kid.parallel == flow[kid.pos].parallel
  }

  ghost predicate Found(kids: seq<Tree>, i: int) { exists k :: 0 <= k < |kids| && kids[k].pos == i }

  lemma {:induction false} OrderNothing(flow: seq<Entry>, kids: seq<Tree>)
    requires flow != [] && InFlowOrder(flow[..|flow| - 1], kids) && !Stands(flow[|flow| - 1])
    ensures InFlowOrder(flow, kids)
  {
    var prev := flow[..|flow| - 1];
    forall k | 0 <= k < |kids| ensures At(flow, kids[k]) { assert At(prev, kids[k]); }
    forall i | 0 <= i < |flow| && Stands(flow[i]) ensures Found(kids, i) { assert prev[i] == flow[i]; }
  }

  lemma {:induction false} OrderNext(flow: seq<Entry>, kids: seq<Tree>, kid: Tree)
    requires flow != [] && InFlowOrder(flow[..|flow| - 1], kids) && At(flow, kid) && kid.pos == |flow| - 1
    ensures InFlowOrder(flow, kids + [kid])
  {
    var prev, all := flow[..|flow| - 1], kids + [kid];
    forall k | 0 <= k < |all| ensures At(flow, all[k]) && (k < |kids| ==> all[k].pos < kid.pos) {
      if k < |kids| { assert At(prev, kids[k]); }
    }
    forall i | 0 <= i < |flow| && Stands(flow[i]) ensures Found(all, i) {
      if i < |prev| {
        assert prev[i] == flow[i] && Found(kids, i);
        var k :| 0 <= k < |kids| && kids[k].pos == i;
        assert all[k].pos == i;
      } else {
        assert all[|kids|].pos == i;
      }
    }
  }

  /** The child steps made stand in the order of the specification. */
  lemma {:induction false} FlowPositions(flow: seq<Entry>, parent: StepId, db: Db)
    ensures InFlowOrder(flow, CreateFlow(flow, parent, db).kids)
  {
    if flow != [] {
      var n := |flow| - 1;
      var before := CreateFlow(flow[..n], parent, db);
      var made := CreateEntry(flow[n], n, parent, before.db).kids;
      FlowPositions(flow[..n], parent, db);
      if Stands(flow[n]) {
        assert made == [made[0]];
        OrderNext(flow, before.kids, made[0]);
      } else {
        assert made == [] && before.kids + made == before.kids;
        OrderNothing(flow, before.kids);
      }
    }
  }

  /******* Error tasks *******/

  /** Error tasks are rows of their step. */
  ghost predicate InTheirStep(onError: OnError, tasks: seq<Task>) {
    forall d :: d in onError ==> StepRows(d, onError[d], tasks)
  }

  ghost predicate StepRows(d: StepId, rows: set<TaskId>, tasks: seq<Task>) {
    forall i :: i in rows ==> i < |tasks| && tasks[i].step == Some(d)
  }

  lemma {:induction false} TheirsGrow(onError: OnError, a: seq<Task>, b: seq<Task>)
    requires InTheirStep(onError, a) && a <= b
    ensures InTheirStep(onError, b)
  {
    forall d | d in onError ensures StepRows(d, onError[d], b) {
      assert StepRows(d, onError[d], a);
      assert forall i :: 0 <= i < |a| ==> b[i] == a[i];
    }
  }

  lemma {:induction false} FlowErrorsTheirs(flow: seq<Entry>, parent: StepId, db: Db)
    ensures var b := CreateFlow(flow, parent, db);
            && InTheirStep(FlowErrors(flow, parent, db), b.db.tasks) && db.tasks <= b.db.tasks && db.steps <= b.db.steps
            && forall d :: d in FlowErrors(flow, parent, db) ==> db.steps <= d < b.db.steps
    decreases flow, 0
  {
    if flow != [] {
      var n := |flow| - 1;
      FlowErrorsTheirs(flow[..n], parent, db);
      var mid := CreateFlow(flow[..n], parent, db).db;
      EntryErrorsTheirs(flow[n], n, parent, mid);
      TheirsGrow(FlowErrors(flow[..n], parent, db), mid.tasks, CreateFlow(flow, parent, db).db.tasks);
    }
  }

  lemma {:induction false} EntryErrorsTheirs(e: Entry, index: nat, parent: StepId, db: Db)
    ensures var b := CreateEntry(e, index, parent, db);
            && InTheirStep(EntryErrors(e, db), b.db.tasks) && db.tasks <= b.db.tasks && db.steps <= b.db.steps
            && forall d :: d in EntryErrors(e, db) ==> db.steps <= d < b.db.steps
    decreases e, 1
  {
    if e.enabled && e.TaskEntry? {
      AddErrorsMade(e.onError, parent, PENDING, AddTask(parent, e.work, index, PENDING, 0, db));
    } else if e.enabled && e.children != [] {
      FilledTheirs(e.children, e.onError, db.steps, PENDING, db.(steps := db.steps + 1, clock := db.clock + 1));
    }
  }

  lemma {:induction false} FilledTheirs(flow: seq<Entry>, onError: seq<Work>, d: StepId, status: State, db: Db)
    requires d < db.steps
    ensures var b := CreateFlow(flow, d, AddErrors(onError, d, status, db));
            var errors := FilledErrors(flow, onError, d, status, db);
            && InTheirStep(errors, b.db.tasks) && db.tasks <= b.db.tasks && db.steps <= b.db.steps
            && d in errors && |b.db.tasks| >= |db.tasks| + |onError|
            && (forall i :: i in errors[d] <==> |db.tasks| <= i < |db.tasks| + |onError|)
            && forall k :: k in errors ==> k == d || db.steps <= k < b.db.steps
    decreases flow, 1
  {
    var filled := AddErrors(onError, d, status, db);
    AddErrorsMade(onError, d, status, db);
    FlowErrorsTheirs(flow, d, filled);
    var all := CreateFlow(flow, d, filled).db.tasks;
    assert forall i :: 0 <= i < |filled.tasks| ==> all[i] == filled.tasks[i];
  }

  /******* The rows that creation makes *******/

  /** The error tasks are rows of the step, at positions from 0, one after the other. */
  lemma {:induction false} ErrorRow(errors: seq<Work>, step: StepId, status: State, db: Db, k: nat)
    requires k < |errors|
    ensures var hi := AddErrors(errors, step, status, db);
            && |hi.tasks| == |db.tasks| + |errors| && hi.clock == db.clock + |errors| && hi.ids == db.ids + |errors|
            && hi.tasks[|db.tasks| + k]
               == Task(Some(step), errors[k], k, db.clock + k, status, db.ids + k, if status == SUCCESS then 100 else 0, None)
  {
    var n := |errors| - 1;
    if k < n {
      ErrorRow(errors[..n], step, status, db, k);
    } else if n > 0 {
      ErrorRow(errors[..n], step, status, db, 0);
    }
  }

  lemma {:induction false} FlowKeeps(flow: seq<Entry>, parent: StepId, db: Db, i: nat)
    requires i <= |flow| && parent < db.steps
    ensures parent < CreateFlow(flow[..i], parent, db).db.steps
    ensures CreateFlow(flow[..i], parent, db).db.tasks <= CreateFlow(flow, parent, db).db.tasks
    ensures CreateFlow(flow[..i], parent, db).kids <= CreateFlow(flow, parent, db).kids
  {
    FlowMade(flow[..i], parent, db);
    if i == |flow| {
      assert flow[..i] == flow;
    } else {
      var n := |flow| - 1;
      assert flow[..n][..i] == flow[..i];
      FlowKeeps(flow[..n], parent, db, i);
      FlowMade(flow[..n], parent, db);
      EntryMade(flow[n], n, parent, CreateFlow(flow[..n], parent, db).db);
    }
  }

  /** An enabled task entry becomes a pending row of the step, at the index of the entry, made
      after the rows of all entries before it. */
  lemma {:induction false} TaskRow(flow: seq<Entry>, parent: StepId, db: Db, i: nat)
    requires i < |flow| && flow[i].enabled && flow[i].TaskEntry? && parent < db.steps
    ensures var before, all := CreateFlow(flow[..i], parent, db).db, CreateFlow(flow, parent, db).db.tasks;
            |before.tasks| < |all|
            && all[|before.tasks|] == Task(Some(parent), flow[i].work, i, before.clock, PENDING, before.ids, 0, None)
  {
    var before := CreateFlow(flow[..i], parent, db).db;
    FlowKeeps(flow, parent, db, i);
    FlowKeeps(flow, parent, db, i + 1);
    assert flow[..i + 1][..i] == flow[..i];
    AddErrorsMade(flow[i].onError, parent, PENDING, AddTask(parent, flow[i].work, i, PENDING, 0, before));
  }

  /** The error tasks of the entry follow as pending rows of the same step, and nothing else. */
  lemma {:induction false} TaskErrors(flow: seq<Entry>, parent: StepId, db: Db, i: nat, k: nat)
    requires i < |flow| && flow[i].enabled && flow[i].TaskEntry? && parent < db.steps
    ensures |CreateFlow(flow[..i + 1], parent, db).db.tasks|
            == |CreateFlow(flow[..i], parent, db).db.tasks| + 1 + |flow[i].onError|
    ensures var before, all := CreateFlow(flow[..i], parent, db).db, CreateFlow(flow, parent, db).db.tasks;
            k < |flow[i].onError| ==>
              && |before.tasks| + 1 + k < |all|
              && all[|before.tasks| + 1 + k]
                 == Task(Some(parent), flow[i].onError[k], k, before.clock + 1 + k, PENDING, before.ids + 1 + k, 0, None)
  {
    var before := CreateFlow(flow[..i], parent, db).db;
    FlowKeeps(flow, parent, db, i + 1);
    assert flow[..i + 1][..i] == flow[..i];
    var started := AddTask(parent, flow[i].work, i, PENDING, 0, before);
    AddErrorsMade(flow[i].onError, parent, PENDING, started);
    if k < |flow[i].onError| { ErrorRow(flow[i].onError, parent, PENDING, started, k); }
  }

  /** An entry leaves no trace exactly when it is disabled, or is a step without children. */
  lemma {:induction false} EntrySkipped(flow: seq<Entry>, parent: StepId, db: Db, i: nat)
    requires i < |flow| && parent < db.steps
    ensures CreateFlow(flow[..i + 1], parent, db) == CreateFlow(flow[..i], parent, db)
            <==> !flow[i].enabled || (flow[i].StepEntry? && flow[i].children == [])
  {
    assert flow[..i + 1][..i] == flow[..i];
    if flow[i].enabled && flow[i].TaskEntry? {
      TaskErrors(flow, parent, db, i, 0);
    } else if flow[i].enabled && flow[i].children != [] {
      StepRowMade(flow[..i + 1], parent, db, i);
    }
  }

  /** A step entry that is enabled and not empty becomes a child step at its index, made after all
      before it, whose error tasks come first. */
  lemma {:induction false} StepRowMade(flow: seq<Entry>, parent: StepId, db: Db, i: nat)
    requires i < |flow| && flow[i].StepEntry? && flow[i].enabled && flow[i].children != [] && parent < db.steps
    ensures var before, all := CreateFlow(flow[..i], parent, db), CreateFlow(flow, parent, db);
            && |before.kids| < |all.kids|
            && var kid := all.kids[|before.kids|];
               && kid.id == before.db.steps && kid.pos == i && kid.created == before.db.clock
               && kid.parallel == flow[i].parallel
    ensures var before, errors := CreateFlow(flow[..i], parent, db).db, FlowErrors(flow, parent, db);
            && before.steps in errors
            && forall x :: x in errors[before.steps] <==> |before.tasks| <= x < |before.tasks| + |flow[i].onError|
  {
    var before := CreateFlow(flow[..i], parent, db);
    FlowKeeps(flow, parent, db, i);
    FlowKeeps(flow, parent, db, i + 1);
    assert flow[..i + 1][..i] == flow[..i];
    FilledTheirs(flow[i].children, flow[i].onError, before.db.steps, PENDING,
                 before.db.(steps := before.db.steps + 1, clock := before.db.clock + 1));
    ErrorsGrow(flow, parent, db, i + 1, before.db.steps);
  }

  /** Creating a step entry, cut after its error tasks. */
  lemma {:induction false} StepFilled(flow: seq<Entry>, parent: StepId, db: Db, i: nat) returns (filled: Db)
    requires i < |flow| && flow[i].StepEntry? && flow[i].enabled && flow[i].children != [] && parent < db.steps
    ensures var b := CreateFlow(flow[..i], parent, db).db;
            filled == AddErrors(flow[i].onError, b.steps, PENDING, b.(steps := b.steps + 1, clock := b.clock + 1))
    ensures var b, next, below := CreateFlow(flow[..i], parent, db), CreateFlow(flow[..i + 1], parent, db),
                                  CreateFlow(flow[i].children, CreateFlow(flow[..i], parent, db).db.steps, filled);
            && next.db.tasks == below.db.tasks
            && |next.kids| == |b.kids| + 1 && next.kids[|b.kids|].steps == below.kids
  {
    var b := CreateFlow(flow[..i], parent, db).db;
    assert flow[..i + 1][..i] == flow[..i];
    filled := AddErrors(flow[i].onError, b.steps, PENDING, b.(steps := b.steps + 1, clock := b.clock + 1));
  }

  /** In the child step its error tasks come first, then what its children make. */
  lemma {:induction false} StepHolds(flow: seq<Entry>, parent: StepId, db: Db, i: nat, k: nat) returns (filled: Db)
    requires i < |flow| && flow[i].StepEntry? && flow[i].enabled && flow[i].children != [] && parent < db.steps
    ensures var before, all := CreateFlow(flow[..i], parent, db), CreateFlow(flow, parent, db);
            && |filled.tasks| == |before.db.tasks| + |flow[i].onError| && filled.steps == before.db.steps + 1
            && (k < |flow[i].onError| ==>
                  filled.tasks[|before.db.tasks| + k]
                  == Task(Some(before.db.steps), flow[i].onError[k], k, before.db.clock + 1 + k, PENDING,
                          before.db.ids + k, 0, None))
            && var below := CreateFlow(flow[i].children, before.db.steps, filled);
               && filled.tasks <= below.db.tasks <= all.db.tasks
               && |before.kids| < |all.kids| && all.kids[|before.kids|].steps == below.kids
  {
    filled := StepFilled(flow, parent, db, i);
    FlowKeeps(flow, parent, db, i + 1);
    StepErrors(flow[i], CreateFlow(flow[..i], parent, db).db, filled, k);
  }

  lemma {:induction false} StepErrors(e: Entry, b: Db, filled: Db, k: nat)
    requires e.StepEntry? && filled == AddErrors(e.onError, b.steps, PENDING, b.(steps := b.steps + 1, clock := b.clock + 1))
    ensures |filled.tasks| == |b.tasks| + |e.onError| && filled.steps == b.steps + 1
    ensures k < |e.onError| ==>
              filled.tasks[|b.tasks| + k]
              == Task(Some(b.steps), e.onError[k], k, b.clock + 1 + k, PENDING, b.ids + k, 0, None)
    ensures filled.tasks <= CreateFlow(e.children, b.steps, filled).db.tasks
  {
    var started := b.(steps := b.steps + 1, clock := b.clock + 1);
    AddErrorsMade(e.onError, b.steps, PENDING, started);
    if k < |e.onError| { ErrorRow(e.onError, b.steps, PENDING, started, k); }
    FlowMade(e.children, b.steps, filled);
  }

  /** Error tasks once recorded stay what they are while later entries are created. */
  lemma {:induction false} ErrorsGrow(flow: seq<Entry>, parent: StepId, db: Db, i: nat, d: StepId)
    requires i <= |flow| && d in FlowErrors(flow[..i], parent, db) && parent < db.steps
    ensures d in FlowErrors(flow, parent, db) && FlowErrors(flow, parent, db)[d] == FlowErrors(flow[..i], parent, db)[d]
  {
    if i == |flow| {
      assert flow[..i] == flow;
    } else {
      var n := |flow| - 1;
      assert flow[..n][..i] == flow[..i];
      ErrorsGrow(flow[..n], parent, db, i, d);
      FlowErrorsTheirs(flow[..n], parent, db);
      EntryErrorsTheirs(flow[n], n, parent, CreateFlow(flow[..n], parent, db).db);
    }
  }

  /** The error tasks of the steps below a created step are recorded too. */
  lemma {:induction false} NestedErrors(flow: seq<Entry>, parent: StepId, db: Db, i: nat, d: StepId)
    requires i < |flow| && flow[i].StepEntry? && flow[i].enabled && flow[i].children != [] && parent < db.steps
    requires var b := CreateFlow(flow[..i], parent, db).db;
             d in FlowErrors(flow[i].children, b.steps, AddErrors(flow[i].onError, b.steps, PENDING,
                                                                 b.(steps := b.steps + 1, clock := b.clock + 1)))
    ensures d in FlowErrors(flow, parent, db)
  {
    var b := CreateFlow(flow[..i], parent, db).db;
    assert flow[..i + 1][..i] == flow[..i];
    assert d in FilledErrors(flow[i].children, flow[i].onError, b.steps, PENDING, b.(steps := b.steps + 1, clock := b.clock + 1));
    assert d in EntryErrors(flow[i], b);
    ErrorsGrow(flow, parent, db, i + 1, d);
  }
}

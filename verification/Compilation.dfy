/** Compilation preserves meaning: the canvas of a workflow created from a
    specification runs the enabled tasks of that specification, left to right. */
module Compilation {
  import opened Rows
  import opened Canvas
  import opened Pruning
  import opened Specs

  function Range(lo: nat, hi: nat): (r: seq<nat>)
    requires lo <= hi
    ensures forall i: nat :: i in r <==> lo <= i < hi
  {
    if lo == hi then [] else Range(lo, hi - 1) + [hi - 1]
  }

  function RangeSet(lo: nat, hi: nat): set<nat>
    requires lo <= hi
  {
    set i | i in Range(lo, hi)
  }

  lemma {:induction false} RangeSplit(lo: nat, mid: nat, hi: nat)
    requires lo <= mid <= hi
    ensures Range(lo, hi) == Range(lo, mid) + Range(mid, hi)
  {
    if mid < hi { RangeSplit(lo, mid, hi - 1); }
  }

  /******* Adding one child at the end *******/

  lemma {:induction false} OrderOfSame(t: Tree, a: seq<Task>, selA: set<TaskId>, u: Tree, b: seq<Task>,
                                       selB: set<TaskId>, items: seq<Child>)
    requires forall c :: c in items ==>
               IsItem(t, a, selA, c) && IsItem(u, b, selB, c) && OrderAt(t, a, selA, c) == OrderAt(u, b, selB, c)
    ensures OrderOf(t, a, selA, items) == OrderOf(u, b, selB, items)
  {
    if items != [] {
      assert items[|items| - 1] in items;
      OrderOfSame(t, a, selA, u, b, selB, items[..|items| - 1]);
    }
  }

  /** If `u` has the children of `t` and a last one `c`, it lists those of `t` and then `c`. */
  lemma {:induction false} LastChild(t: Tree, a: seq<Task>, selA: set<TaskId>, u: Tree, b: seq<Task>,
                                     selB: set<TaskId>, c: Child)
    requires WellFormed(t) && WellFormed(u)
    requires forall d :: IsItem(u, b, selB, d) <==> IsItem(t, a, selA, d) || d == c
    requires forall d :: IsItem(t, a, selA, d) ==> Before(d, c) && OrderAt(t, a, selA, d) == OrderAt(u, b, selB, d)
    ensures LeafOrder(u, b, selB) == LeafOrder(t, a, selA) + OrderAt(u, b, selB, c)
  {
    var xs := ResultList(t, a, selA);
    ListedLast(xs, ResultList(u, b, selB), c);
    assert (xs + [c])[..|xs|] == xs;
    OrderOfSame(t, a, selA, u, b, selB, xs);
  }

  lemma {:induction false} ListedLast(xs: seq<Child>, ys: seq<Child>, c: Child)
    requires Sorted(xs) && Sorted(ys)
    requires forall d :: d in ys <==> d in xs || d == c
    requires forall d :: d in xs ==> Before(d, c)
    ensures ys == xs + [c]
  {
    assert forall k :: 0 <= k < |xs| ==> xs[k] in xs;
    assert Sorted(xs + [c]);
    SortedUnique(ys, xs + [c]);
  }

  /** Rows added outside a subtree do not change its order. */
  lemma {:induction false} KidUnchanged(kid: Tree, a: seq<Task>, b: seq<Task>, lo: nat)
    requires WellFormed(kid) && a <= b && lo <= |a|
    requires forall i :: |a| <= i < |b| ==> !InTree(b[i], kid)
    ensures LeafOrder(kid, a, RangeSet(lo, |a|)) == LeafOrder(kid, b, RangeSet(lo, |b|))
  {
    LeafOrderFrame(kid, a, RangeSet(lo, |a|), b, RangeSet(lo, |b|));
  }

  lemma {:induction false} AddRowItems(t: Tree, a: seq<Task>, b: seq<Task>, lo: nat)
    requires lo <= |a| && a <= b && |b| == |a| + 1 && b[|a|].step == Some(t.id)
    ensures forall d :: IsItem(t, b, RangeSet(lo, |b|), d) <==> IsItem(t, a, RangeSet(lo, |a|), d) || d == TaskItem(b, |a|)
  {
    forall d ensures IsItem(t, b, RangeSet(lo, |b|), d) <==> IsItem(t, a, RangeSet(lo, |a|), d) || d == TaskItem(b, |a|) {
      assert d.isTask && d.row < |a| ==> b[d.row] == a[d.row];
    }
  }

  lemma {:induction false} AddRowOld(t: Tree, a: seq<Task>, b: seq<Task>, lo: nat, d: Child)
    requires WellFormed(t) && lo <= |a| && a <= b && |b| == |a| + 1 && b[|a|].step == Some(t.id)
    requires IsItem(t, a, RangeSet(lo, |a|), d) && IsItem(t, b, RangeSet(lo, |b|), d)
    ensures OrderAt(t, a, RangeSet(lo, |a|), d) == OrderAt(t, b, RangeSet(lo, |b|), d)
  {
    if !d.isTask { KidUnchanged(t.steps[IndexOf(t.steps, d.row)], a, b, lo); }
  }

  /** One more task at the end of a step. */
  lemma {:induction false} AddRow(t: Tree, a: seq<Task>, b: seq<Task>, lo: nat)
    requires WellFormed(t) && lo <= |a| && a <= b && |b| == |a| + 1 && b[|a|].step == Some(t.id)
    requires forall d :: IsItem(t, a, RangeSet(lo, |a|), d) ==> d.pos < b[|a|].pos
    requires LeafOrder(t, a, RangeSet(lo, |a|)) == Range(lo, |a|)
    ensures LeafOrder(t, b, RangeSet(lo, |b|)) == Range(lo, |b|)
  {
    var selA, selB := RangeSet(lo, |a|), RangeSet(lo, |b|);
    var c := TaskItem(b, |a|);
    AddRowItems(t, a, b, lo);
    forall d | IsItem(t, a, selA, d) ensures Before(d, c) && OrderAt(t, a, selA, d) == OrderAt(t, b, selB, d) {
      AddRowOld(t, a, b, lo, d);
    }
    LastChild(t, a, selA, t, b, selB, c);
  }

  /** One more child step at the end of a step, with all the newer rows in it. */
  lemma {:induction false} AddStep(t: Tree, kid: Tree, u: Tree, a: seq<Task>, b: seq<Task>, lo: nat)
    requires WellFormed(u) && WellFormed(t) && u.id == t.id && u.steps == t.steps + [kid]
    requires lo <= |a| && a <= b
    requires forall i: nat | i < |b| :: InTree(b[i], kid) <==> |a| <= i
    requires forall d :: IsItem(t, a, RangeSet(lo, |a|), d) ==> d.pos < kid.pos
    requires LeafOrder(t, a, RangeSet(lo, |a|)) == Range(lo, |a|)
    requires LeafOrder(kid, b, RangeSet(|a|, |b|)) == Range(|a|, |b|)
    ensures LeafOrder(u, b, RangeSet(lo, |b|)) == Range(lo, |b|)
  {
    var selA, selB := RangeSet(lo, |a|), RangeSet(lo, |b|);
    var c := StepItem(kid);
    var n := |t.steps|;
    assert u.steps[n] == kid && kid.id in Ids(kid);
    KidUnique(u, n, kid.id);
    forall d ensures IsItem(u, b, selB, d) <==> IsItem(t, a, selA, d) || d == c {
      AddStepItems(t, kid, u, a, b, lo, d);
    }
    forall d | IsItem(t, a, selA, d) ensures Before(d, c) && OrderAt(t, a, selA, d) == OrderAt(u, b, selB, d) {
      if !d.isTask { OldStep(t, kid, u, a, b, lo, IndexOf(t.steps, d.row)); }
    }
    LastChild(t, a, selA, u, b, selB, c);
    LeafOrderFrame(kid, b, selB, b, RangeSet(|a|, |b|));
    RangeSplit(lo, |a|, |b|);
  }

  lemma {:induction false} OldStep(t: Tree, kid: Tree, u: Tree, a: seq<Task>, b: seq<Task>, lo: nat, k: nat)
    requires WellFormed(u) && u.steps == t.steps + [kid] && k < |t.steps|
    requires lo <= |a| && a <= b && forall i: nat | i < |b| :: InTree(b[i], kid) <==> |a| <= i
    ensures u.steps[k] == t.steps[k] && IndexOf(u.steps, t.steps[k].id) == k
    ensures LeafOrder(t.steps[k], a, RangeSet(lo, |a|)) == LeafOrder(t.steps[k], b, RangeSet(lo, |b|))
  {
    var n := |t.steps|;
    assert u.steps[k] == t.steps[k] && u.steps[n] == kid && t.steps[k].id in Ids(t.steps[k]);
    assert Ids(u.steps[k]) !! Ids(u.steps[n]);
    KidUnique(u, k, t.steps[k].id);
    KidUnchanged(t.steps[k], a, b, lo);
  }

  lemma {:induction false} AddStepItems(t: Tree, kid: Tree, u: Tree, a: seq<Task>, b: seq<Task>, lo: nat, d: Child)
    requires WellFormed(u) && u.id == t.id && u.steps == t.steps + [kid] && lo <= |a| && a <= b
    requires forall i: nat | i < |b| :: InTree(b[i], kid) <==> |a| <= i
    ensures IsItem(u, b, RangeSet(lo, |b|), d) <==> IsItem(t, a, RangeSet(lo, |a|), d) || d == StepItem(kid)
  {
    assert u.steps[|t.steps|] == kid;
    if d.isTask {
      assert d.row < |a| ==> b[d.row] == a[d.row];
    } else if IsItem(t, a, RangeSet(lo, |a|), d) {
      var i :| 0 <= i < |t.steps| && d == StepItem(t.steps[i]);
      assert u.steps[i] == t.steps[i];
    }
  }

  /******* Rows are created in execution order *******/

  /** Every task belongs to an existing step. */
  ghost predicate Referential(db: Db) {
    forall i :: 0 <= i < |db.tasks| && db.tasks[i].step.Some? ==> db.tasks[i].step.value < db.steps
  }

  lemma {:induction false} NewPositions(flow: seq<Entry>, parent: StepId, db: Db, i: TaskId)
    requires parent < db.steps && Errors(flow) == 0
    requires |db.tasks| <= i < |CreateFlow(flow, parent, db).db.tasks|
    requires CreateFlow(flow, parent, db).db.tasks[i].step == Some(parent)
    ensures 0 <= CreateFlow(flow, parent, db).db.tasks[i].pos < |flow|
  {
    var n := |flow| - 1;
    var before := CreateFlow(flow[..n], parent, db);
    FlowMade(flow[..n], parent, db);
    EntryMade(flow[n], n, parent, before.db);
    var made := CreateEntry(flow[n], n, parent, before.db);
    if i < |before.db.tasks| {
      assert made.db.tasks[i] == before.db.tasks[i];
      NewPositions(flow[..n], parent, db, i);
    } else if flow[n].enabled && flow[n].StepEntry? && flow[n].children != [] {
      var e := flow[n];
      var started := before.db.(steps := before.db.steps + 1, clock := before.db.clock + 1);
      assert e.onError == [];
      FlowMade(e.children, before.db.steps, started);
    }
  }

  /** The root `parent` with the children created for it. */
  ghost function RootOf(flow: seq<Entry>, parent: StepId, db: Db, like: Tree): Tree {
    Node(parent, like.pos, like.created, like.parallel, CreateFlow(flow, parent, db).kids)
  }

  lemma {:induction false} RootWellFormed(flow: seq<Entry>, parent: StepId, db: Db, like: Tree)
    requires parent < db.steps
    ensures WellFormed(RootOf(flow, parent, db, like))
  {
    FlowMade(flow, parent, db);
    WellFormedSplit(RootOf(flow, parent, db, like));
  }

  lemma {:induction false} OldItemsBefore(flow: seq<Entry>, parent: StepId, db: Db, like: Tree, d: Child)
    requires parent < db.steps && Errors(flow) == 0
    requires var hi := CreateFlow(flow, parent, db).db;
             |db.tasks| <= |hi.tasks| && IsItem(RootOf(flow, parent, db, like), hi.tasks, RangeSet(|db.tasks|, |hi.tasks|), d)
    ensures 0 <= d.pos < |flow|
  {
    FlowMade(flow, parent, db);
    if d.isTask { NewPositions(flow, parent, db, d.row); }
  }

  lemma {:induction false} MadeReferential(parent: StepId, lo: Db, kids: seq<Tree>, hi: Db, width: nat)
    requires Made(parent, lo, kids, hi, width) && Referential(lo)
    ensures Referential(hi)
  {
    forall i | 0 <= i < |hi.tasks| && hi.tasks[i].step.Some? ensures hi.tasks[i].step.value < hi.steps {
      if i < |lo.tasks| { assert hi.tasks[i] == lo.tasks[i]; }
    }
  }

  /** LeafOrder of what was created is the order of creation. */
  lemma {:induction false} FlowOrder(flow: seq<Entry>, parent: StepId, db: Db, like: Tree)
    requires parent < db.steps && Errors(flow) == 0 && Referential(db)
    ensures var hi := CreateFlow(flow, parent, db).db;
            && |db.tasks| <= |hi.tasks|
            && LeafOrder(RootOf(flow, parent, db, like), hi.tasks, RangeSet(|db.tasks|, |hi.tasks|))
               == Range(|db.tasks|, |hi.tasks|)
    decreases flow, 2
  {
    if flow == [] {
      var t := RootOf(flow, parent, db, like);
      assert forall d :: !IsItem(t, db.tasks, RangeSet(|db.tasks|, |db.tasks|), d);
      SortedUnique(ResultList(t, db.tasks, RangeSet(|db.tasks|, |db.tasks|)), []);
    } else {
      var n := |flow| - 1;
      var e, prev := flow[n], flow[..n];
      var before := CreateFlow(prev, parent, db);
      var made := CreateEntry(e, n, parent, before.db);
      assert CreateFlow(flow, parent, db) == Built(before.kids + made.kids, made.db);
      FlowOrder(prev, parent, db, like);
      FlowMade(prev, parent, db);
      RootWellFormed(prev, parent, db, like);
      RootWellFormed(flow, parent, db, like);
      var t := RootOf(prev, parent, db, like);
      forall d | IsItem(t, before.db.tasks, RangeSet(|db.tasks|, |before.db.tasks|), d) ensures d.pos < n {
        OldItemsBefore(prev, parent, db, like, d);
      }
      if !e.enabled || (e.StepEntry? && e.children == []) {
        assert before.kids + [] == before.kids;
      } else if e.TaskEntry? {
        assert e.onError == [] && before.kids + [] == before.kids;
        AddRow(t, before.db.tasks, made.db.tasks, |db.tasks|);
      } else {
        MadeReferential(parent, db, before.kids, before.db, n);
        StepOrder(e, n, parent, before.db);
        AddStep(t, made.kids[0], RootOf(flow, parent, db, like), before.db.tasks, made.db.tasks, |db.tasks|);
      }
    }
  }

  /** A created step without error tasks holds exactly the rows created since. */
  lemma {:induction false} StepRows(e: Entry, n: nat, parent: StepId, db: Db)
    requires parent < db.steps && e.enabled && e.StepEntry? && e.children != [] && e.onError == []
    requires Referential(db)
    ensures var b := CreateEntry(e, n, parent, db);
            var started := db.(steps := db.steps + 1, clock := db.clock + 1);
            && |b.kids| == 1 && b.kids[0].pos == n && db.tasks <= b.db.tasks
            && b.db == CreateFlow(e.children, db.steps, started).db
            && b.kids[0] == RootOf(e.children, db.steps, started, b.kids[0])
            && (forall i: nat | i < |b.db.tasks| :: InTree(b.db.tasks[i], b.kids[0]) <==> |db.tasks| <= i)
  {
    var started := db.(steps := db.steps + 1, clock := db.clock + 1);
    var b := CreateEntry(e, n, parent, db);
    FlowMade(e.children, db.steps, started);
    IdsSplit(b.kids[0]);
    forall i: nat | i < |b.db.tasks| ensures InTree(b.db.tasks[i], b.kids[0]) <==> |db.tasks| <= i {
      if i < |db.tasks| { assert b.db.tasks[i] == db.tasks[i]; }
    }
  }

  lemma {:induction false} StepOrder(e: Entry, n: nat, parent: StepId, db: Db)
    requires parent < db.steps && e.enabled && e.StepEntry? && e.children != [] && ErrorsIn(e) == 0
    requires Referential(db)
    ensures var b := CreateEntry(e, n, parent, db);
            && |b.kids| == 1 && b.kids[0].pos == n && db.tasks <= b.db.tasks
            && (forall i: nat | i < |b.db.tasks| :: InTree(b.db.tasks[i], b.kids[0]) <==> |db.tasks| <= i)
            && LeafOrder(b.kids[0], b.db.tasks, RangeSet(|db.tasks|, |b.db.tasks|)) == Range(|db.tasks|, |b.db.tasks|)
    decreases e, 1
  {
    assert e.onError == [];
    StepRows(e, n, parent, db);
    var started := db.(steps := db.steps + 1, clock := db.clock + 1);
    assert Referential(started);
    FlowOrder(e.children, db.steps, started, CreateEntry(e, n, parent, db).kids[0]);
  }

  function Works(tasks: seq<Task>): seq<Work> {
    seq(|tasks|, i requires 0 <= i < |tasks| => tasks[i].work)
  }

  /** The rows created are the enabled entries, in the order of the specification. */
  lemma {:induction false} FlowWork(flow: seq<Entry>, parent: StepId, db: Db)
    requires parent < db.steps && Errors(flow) == 0
    ensures var hi := CreateFlow(flow, parent, db).db;
            db.tasks <= hi.tasks && Works(hi.tasks[|db.tasks|..]) == Enabled(flow)
    decreases flow, 0
  {
    FlowMade(flow, parent, db);
    if flow != [] {
      var n := |flow| - 1;
      var e := flow[n];
      var mid := CreateFlow(flow[..n], parent, db).db;
      var hi := CreateEntry(e, n, parent, mid).db;
      FlowMade(flow[..n], parent, db);
      FlowWork(flow[..n], parent, db);
      EntryWork(e, n, parent, mid);
      WorksSplit(hi.tasks, |db.tasks|, |mid.tasks|);
      assert hi.tasks[|db.tasks|..|mid.tasks|] == mid.tasks[|db.tasks|..];
    }
  }

  lemma {:induction false} WorksSplit(tasks: seq<Task>, lo: nat, mid: nat)
    requires lo <= mid <= |tasks|
    ensures Works(tasks[lo..]) == Works(tasks[lo..mid]) + Works(tasks[mid..])
  {
    assert tasks[lo..] == tasks[lo..mid] + tasks[mid..];
  }

  lemma {:induction false} EntryWork(e: Entry, n: nat, parent: StepId, db: Db)
    requires parent < db.steps && ErrorsIn(e) == 0
    ensures var hi := CreateEntry(e, n, parent, db).db;
            db.tasks <= hi.tasks && Works(hi.tasks[|db.tasks|..]) == EnabledIn(e)
    decreases e, 1
  {
    if e.enabled {
      if e.TaskEntry? {
        assert e.onError == [];
      } else if e.children != [] {
        assert e.onError == [];
        FlowWork(e.children, db.steps, db.(steps := db.steps + 1, clock := db.clock + 1));
      } else {
        assert Enabled(e.children) == [];
      }
    }
  }

  /******* Pruning keeps the order *******/

  /** The last item of a sorted list is the last one of any sorted selection that has it. */
  lemma {:induction false} SelectionLast(xs: seq<Child>, ys: seq<Child>)
    requires Sorted(xs) && Sorted(ys) && xs != [] && forall c :: c in ys ==> c in xs
    ensures var x, rest := xs[|xs| - 1], xs[..|xs| - 1];
            if x in ys then
              && ys[|ys| - 1] == x
              && (forall c :: c in rest ==> (c in ys <==> c in ys[..|ys| - 1]))
              && (forall c :: c in ys[..|ys| - 1] ==> c in rest)
            else forall c :: c in ys ==> c in rest
  {
    var n, m := |xs| - 1, |ys| - 1;
    if xs[n] in ys {
      var k :| 0 <= k <= m && ys[k] == xs[n];
      assert ys[m] in xs;
      forall c | c in ys[..m] ensures c in xs[..n] { assert c in ys && c in xs; }
    }
  }

  /** Children that contribute nothing can be left out of the list. */
  lemma {:induction false} DropIdle(t: Tree, u: Tree, tasks: seq<Task>, sel: set<TaskId>, xs: seq<Child>, ys: seq<Child>)
    requires Sorted(xs) && Sorted(ys)
    requires forall c :: c in ys ==> c in xs && IsItem(u, tasks, sel, c)
    requires forall c :: c in xs ==> IsItem(t, tasks, sel, c)
    requires forall c | c in xs :: OrderAt(t, tasks, sel, c) == if c in ys then OrderAt(u, tasks, sel, c) else []
    ensures OrderOf(t, tasks, sel, xs) == OrderOf(u, tasks, sel, ys)
  {
    if xs == [] {
      SortedUnique(xs, ys);
    } else {
      SelectionLast(xs, ys);
      var n := |xs| - 1;
      assert xs[n] in xs;
      DropIdle(t, u, tasks, sel, xs[..n], if xs[n] in ys then ys[..|ys| - 1] else ys);
    }
  }

  lemma {:induction false} SameIdSameKid(t: Tree, i: nat, k: nat)
    requires WellFormed(t) && i < |t.steps| && k < |t.steps| && t.steps[i].id == t.steps[k].id
    ensures i == k
  {
    KidUnique(t, i, t.steps[i].id);
    KidUnique(t, k, t.steps[k].id);
  }

  /** A kept child step is found under its id, pruned. */
  lemma {:induction false} PrunedKid(t: Tree, tasks: seq<Task>, k: nat) returns (j: nat)
    requires WellFormed(t) && k < |t.steps| && HasTask(t.steps[k], tasks)
    ensures j < |Pruned(t, tasks).steps| && Pruned(t, tasks).steps[j] == Pruned(t.steps[k], tasks)
    ensures IndexOf(Pruned(t, tasks).steps, t.steps[k].id) == j
  {
    var u := Pruned(t, tasks);
    WellFormedSplit(t);
    PrunedAllWellFormed(t.steps, tasks);
    PrunedWellFormed(t, tasks);
    j :| 0 <= j < |u.steps| && u.steps[j] == Pruned(t.steps[k], tasks);
    KidUnique(u, j, u.steps[j].id);
  }

  /** The items of the pruned step are those of the step, without the idle child steps. */
  lemma {:induction false} PrunedItems(t: Tree, tasks: seq<Task>, sel: set<TaskId>, c: Child)
    requires WellFormed(t)
    ensures IsItem(Pruned(t, tasks), tasks, sel, c) <==>
            IsItem(t, tasks, sel, c) && (c.isTask || HasTask(t.steps[IndexOf(t.steps, c.row)], tasks))
  {
    var u := Pruned(t, tasks);
    WellFormedSplit(t);
    PrunedAllWellFormed(t.steps, tasks);
    if !c.isTask {
      if IsItem(u, tasks, sel, c) {
        var j :| 0 <= j < |u.steps| && c == StepItem(u.steps[j]);
        assert u.steps[j] in u.steps;
        var k :| 0 <= k < |t.steps| && HasTask(t.steps[k], tasks) && u.steps[j] == Pruned(t.steps[k], tasks);
        assert c == StepItem(t.steps[k]);
        SameIdSameKid(t, k, IndexOf(t.steps, c.row));
      }
      if IsItem(t, tasks, sel, c) && HasTask(t.steps[IndexOf(t.steps, c.row)], tasks) {
        var k :| 0 <= k < |t.steps| && c == StepItem(t.steps[k]);
        SameIdSameKid(t, k, IndexOf(t.steps, c.row));
        var j := PrunedKid(t, tasks, k);
        assert c == StepItem(u.steps[j]);
      }
    }
  }

  /** Removing the steps without tasks does not change what a step executes. */
  lemma {:induction false} PrunedOrder(t: Tree, tasks: seq<Task>, sel: set<TaskId>)
    requires WellFormed(t)
    ensures LeafOrder(Pruned(t, tasks), tasks, sel) == LeafOrder(t, tasks, sel)
  {
    var u := Pruned(t, tasks);
    PrunedWellFormed(t, tasks);
    var xs, ys := ResultList(t, tasks, sel), ResultList(u, tasks, sel);
    forall c ensures c in ys <==> c in xs && (c.isTask || HasTask(t.steps[IndexOf(t.steps, c.row)], tasks)) {
      PrunedItems(t, tasks, sel, c);
    }
    forall c | c in xs ensures OrderAt(t, tasks, sel, c) == if c in ys then OrderAt(u, tasks, sel, c) else [] {
      if !c.isTask {
        assert IsItem(t, tasks, sel, c);
        var k := IndexOf(t.steps, c.row);
        if HasTask(t.steps[k], tasks) {
          var j := PrunedKid(t, tasks, k);
          PrunedOrder(t.steps[k], tasks, sel);
        } else {
          IdleKid(t.steps[k], tasks, sel);
        }
      }
    }
    DropIdle(t, u, tasks, sel, xs, ys);
  }

  lemma {:induction false} IdleKid(t: Tree, tasks: seq<Task>, sel: set<TaskId>)
    requires WellFormed(t) && !HasTask(t, tasks)
    ensures LeafOrder(t, tasks, sel) == []
  {
    var order := LeafOrder(t, tasks, sel);
    if order != [] {
      assert order[0] in order;
      LeafOrderMembers(t, tasks, sel, order[0]);
    }
  }

  /******* The whole workflow *******/

  function Emitted(c: Canvas): seq<Work> {
    seq(|Leaves(c)|, k requires 0 <= k < |Leaves(c)| => Leaves(c)[k].work)
  }

  /** In a new workflow exactly the rows made from the specification are pending. */
  lemma {:induction false} WorkflowPending(spec: seq<Entry>, onError: seq<Work>, db: Db)
    requires Referential(db)
    ensures var w := CreateWorkflow(spec, onError, db);
            var lo := |db.tasks| + |onError|;
            && WellFormed(w.root)
            && |w.db.tasks| == lo + |Enabled(spec)| + Errors(spec)
            && forall i: nat :: Selected(w.root, w.db.tasks, Pending(w.db.tasks), i) <==> lo <= i < |w.db.tasks|
  {
    ErrorsReferential(onError, db);
    RootedPending(spec, db.steps, AddErrors(onError, db.steps, SUCCESS, Started(db)), db.clock, |db.tasks|);
  }

  /** The tables once the root step is there. */
  function Started(db: Db): Db { db.(steps := db.steps + 1, clock := db.clock + 1) }

  lemma {:induction false} RootedPending(spec: seq<Entry>, root: StepId, filled: Db, created: nat, first: nat)
    requires root < filled.steps && first <= |filled.tasks|
    requires forall i :: 0 <= i < first && filled.tasks[i].step.Some? ==> filled.tasks[i].step.value < root
    requires forall i :: first <= i < |filled.tasks| ==> filled.tasks[i].status != PENDING
    ensures var below := CreateFlow(spec, root, filled);
            var t := Node(root, 0, created, false, below.kids);
            var lo, tasks := |filled.tasks|, below.db.tasks;
            && WellFormed(t) && |tasks| == lo + |Enabled(spec)| + Errors(spec)
            && forall i: nat :: Selected(t, tasks, Pending(tasks), i) <==> lo <= i < |tasks|
  {
    FlowMade(spec, root, filled);
    var below := CreateFlow(spec, root, filled);
    var t := Node(root, 0, created, false, below.kids);
    WellFormedSplit(t);
    IdsSplit(t);
    assert forall i :: 0 <= i < |filled.tasks| ==> below.db.tasks[i] == filled.tasks[i];
    SelectedFrom(t, below.db.tasks, first, |filled.tasks|);
  }

  lemma {:induction false} SelectedFrom(root: Tree, tasks: seq<Task>, first: nat, lo: nat)
    requires first <= lo <= |tasks|
    requires forall i :: 0 <= i < first ==> !InTree(tasks[i], root)
    requires forall i :: first <= i < lo ==> tasks[i].status != PENDING
    requires forall i :: lo <= i < |tasks| ==> tasks[i].status == PENDING && InTree(tasks[i], root)
    ensures forall i: nat :: Selected(root, tasks, Pending(tasks), i) <==> lo <= i < |tasks|
  {
  }

  lemma {:induction false} DistinctRange(xs: seq<nat>, lo: nat, hi: nat)
    requires lo <= hi && Distinct(xs) && forall i: nat :: i in xs <==> lo <= i < hi
    ensures |xs| == hi - lo
  {
    if xs == [] {
      assert lo in xs <==> lo < hi;
    } else {
      assert xs[0] in xs;
      var last: nat := hi - 1;
      assert last in xs;
      var k :| 0 <= k < |xs| && xs[k] == last;
      Without(xs, k);
      var ys := xs[..k] + xs[k + 1..];
      forall i: nat ensures i in ys <==> lo <= i < hi - 1 {
        assert i in ys <==> i in xs && i != last;
      }
      DistinctRange(ys, lo, hi - 1);
    }
  }

  lemma {:induction false} Without(xs: seq<nat>, k: nat)
    requires Distinct(xs) && k < |xs|
    ensures Distinct(xs[..k] + xs[k + 1..])
    ensures forall i: nat :: i in xs[..k] + xs[k + 1..] <==> i in xs && i != xs[k]
  {
    var ys := xs[..k] + xs[k + 1..];
    assert forall j :: 0 <= j < |ys| ==> ys[j] == xs[if j < k then j else j + 1];
    forall i: nat | i in xs && i != xs[k] ensures i in ys {
      var j :| 0 <= j < |xs| && xs[j] == i;
      assert ys[if j < k then j else j - 1] == i;
    }
  }

  /** The canvas of the cleaned-up workflow runs the enabled tasks of the
      specification, left to right, iff no created entry names error tasks of its
      own: those are stored as ordinary pending tasks and would run as well.
      Disabled entries, empty steps and the clean-up change nothing. */
  lemma {:induction false} CompilesFaithfully(spec: seq<Entry>, onError: seq<Work>, db: Db)
    requires Referential(db)
    ensures var w := CreateWorkflow(spec, onError, db);
            Emitted(RunPlan(Pruned(w.root, w.db.tasks), w.db.tasks)) == Enabled(spec) <==> Errors(spec) == 0
  {
    var w := CreateWorkflow(spec, onError, db);
    var tasks, lo := w.db.tasks, |db.tasks| + |onError|;
    var order := LeafOrder(w.root, tasks, Pending(tasks));
    WorkflowPending(spec, onError, db);
    CleanedLeaves(w.root, tasks);
    WorkflowSize(spec, onError, db);
    if Errors(spec) == 0 { CompilesInOrder(spec, onError, db); }
  }

  lemma {:induction false} CompilesInOrder(spec: seq<Entry>, onError: seq<Work>, db: Db)
    requires Referential(db) && Errors(spec) == 0
    ensures var w := CreateWorkflow(spec, onError, db);
            Emitted(RunPlan(Pruned(w.root, w.db.tasks), w.db.tasks)) == Enabled(spec)
  {
    var w := CreateWorkflow(spec, onError, db);
    var tasks, lo := w.db.tasks, |db.tasks| + |onError|;
    WorkflowPending(spec, onError, db);
    CleanedLeaves(w.root, tasks);
    WorkflowOrder(spec, onError, db);
    WorkflowWork(spec, onError, db);
    RangeIndex(lo, |tasks|);
    WorksOfRange(Emitted(RunPlan(Pruned(w.root, tasks), tasks)), Range(lo, |tasks|), tasks, lo, Enabled(spec));
  }

  lemma {:induction false} WorksOfRange(works: seq<Work>, order: seq<TaskId>, tasks: seq<Task>, lo: nat, enabled: seq<Work>)
    requires lo <= |tasks| && |works| == |order| == |tasks| - lo && Works(tasks[lo..]) == enabled
    requires forall k :: 0 <= k < |order| ==> order[k] == lo + k && works[k] == tasks[order[k]].work
    ensures works == enabled
  {
    forall k | 0 <= k < |works| ensures works[k] == enabled[k] {
      assert Works(tasks[lo..])[k] == tasks[lo + k].work;
    }
  }

  lemma {:induction false} CleanedLeaves(root: Tree, tasks: seq<Task>)
    requires WellFormed(root)
    ensures var c, order := RunPlan(Pruned(root, tasks), tasks), LeafOrder(root, tasks, Pending(tasks));
            && |Emitted(c)| == |order|
            && forall k :: 0 <= k < |order| ==> order[k] < |tasks| && Emitted(c)[k] == tasks[order[k]].work
  {
    var t := Pruned(root, tasks);
    var order := LeafOrder(t, tasks, Pending(tasks));
    PrunedOrder(root, tasks, Pending(tasks));
    PrunedWellFormed(root, tasks);
    BuildLeaves(t, tasks, Pending(tasks), Sigs(tasks), false);
    assert forall k :: 0 <= k < |order| ==> order[k] in order;
  }

  lemma {:induction false} WorkflowSize(spec: seq<Entry>, onError: seq<Work>, db: Db)
    requires Referential(db)
    ensures var w := CreateWorkflow(spec, onError, db);
            |LeafOrder(w.root, w.db.tasks, Pending(w.db.tasks))| == |Enabled(spec)| + Errors(spec)
  {
    var w := CreateWorkflow(spec, onError, db);
    var tasks, lo := w.db.tasks, |db.tasks| + |onError|;
    WorkflowPending(spec, onError, db);
    LeafOrderDistinct(w.root, tasks, Pending(tasks));
    forall i: nat ensures i in LeafOrder(w.root, tasks, Pending(tasks)) <==> lo <= i < |tasks| {
      LeafOrderMembers(w.root, tasks, Pending(tasks), i);
    }
    DistinctRange(LeafOrder(w.root, tasks, Pending(tasks)), lo, |tasks|);
  }

  lemma {:induction false} ErrorsReferential(onError: seq<Work>, db: Db)
    requires Referential(db)
    ensures var filled := AddErrors(onError, db.steps, SUCCESS, Started(db));
            && Referential(filled) && db.steps < filled.steps && |filled.tasks| == |db.tasks| + |onError|
            && (forall i :: 0 <= i < |db.tasks| && filled.tasks[i].step.Some? ==> filled.tasks[i].step.value < db.steps)
            && (forall i :: |db.tasks| <= i < |filled.tasks| ==> filled.tasks[i].status != PENDING)
  {
    var filled := AddErrors(onError, db.steps, SUCCESS, Started(db));
    AddErrorsMade(onError, db.steps, SUCCESS, Started(db));
    assert forall i :: 0 <= i < |db.tasks| ==> filled.tasks[i] == db.tasks[i];
  }

  lemma {:induction false} RootedOrder(spec: seq<Entry>, root: StepId, filled: Db, created: nat)
    requires root < filled.steps && Errors(spec) == 0 && Referential(filled)
    ensures var below := CreateFlow(spec, root, filled);
            var lo, hi := |filled.tasks|, |below.db.tasks|;
            && lo <= hi
            && LeafOrder(Node(root, 0, created, false, below.kids), below.db.tasks, RangeSet(lo, hi)) == Range(lo, hi)
  {
    FlowOrder(spec, root, filled, Node(root, 0, created, false, []));
  }

  /** A new workflow executes its rows in the order they were created. */
  lemma {:induction false} WorkflowOrder(spec: seq<Entry>, onError: seq<Work>, db: Db)
    requires Referential(db) && Errors(spec) == 0
    ensures var w := CreateWorkflow(spec, onError, db);
            var lo := |db.tasks| + |onError|;
            lo <= |w.db.tasks| && LeafOrder(w.root, w.db.tasks, Pending(w.db.tasks)) == Range(lo, |w.db.tasks|)
  {
    ErrorsReferential(onError, db);
    RootedWhole(spec, db.steps, AddErrors(onError, db.steps, SUCCESS, Started(db)), db.clock, |db.tasks|);
  }

  lemma {:induction false} RootedWhole(spec: seq<Entry>, root: StepId, filled: Db, created: nat, first: nat)
    requires root < filled.steps && first <= |filled.tasks| && Errors(spec) == 0 && Referential(filled)
    requires forall i :: 0 <= i < first && filled.tasks[i].step.Some? ==> filled.tasks[i].step.value < root
    requires forall i :: first <= i < |filled.tasks| ==> filled.tasks[i].status != PENDING
    ensures var below := CreateFlow(spec, root, filled);
            var t := Node(root, 0, created, false, below.kids);
            var lo, tasks := |filled.tasks|, below.db.tasks;
            lo <= |tasks| && LeafOrder(t, tasks, Pending(tasks)) == Range(lo, |tasks|)
  {
    var below := CreateFlow(spec, root, filled);
    RootedOrder(spec, root, filled, created);
    RootedPending(spec, root, filled, created, first);
    PendingIsRange(Node(root, 0, created, false, below.kids), below.db.tasks, |filled.tasks|);
  }

  lemma {:induction false} PendingIsRange(root: Tree, tasks: seq<Task>, lo: nat)
    requires WellFormed(root) && lo <= |tasks|
    requires forall i: nat :: Selected(root, tasks, Pending(tasks), i) <==> lo <= i < |tasks|
    ensures LeafOrder(root, tasks, Pending(tasks)) == LeafOrder(root, tasks, RangeSet(lo, |tasks|))
  {
    assert forall i: nat :: lo <= i < |tasks| ==> Selected(root, tasks, Pending(tasks), i);
    LeafOrderFrame(root, tasks, RangeSet(lo, |tasks|), tasks, Pending(tasks));
  }

  lemma {:induction false} WorkflowWork(spec: seq<Entry>, onError: seq<Work>, db: Db)
    requires Referential(db) && Errors(spec) == 0
    ensures var tasks := CreateWorkflow(spec, onError, db).db.tasks;
            var lo := |db.tasks| + |onError|;
            lo <= |tasks| && Works(tasks[lo..]) == Enabled(spec)
  {
    AddErrorsMade(onError, db.steps, SUCCESS, db.(steps := db.steps + 1, clock := db.clock + 1));
    FlowWork(spec, db.steps, AddErrors(onError, db.steps, SUCCESS, db.(steps := db.steps + 1, clock := db.clock + 1)));
  }

  lemma {:induction false} RangeIndex(lo: nat, hi: nat)
    requires lo <= hi
    ensures |Range(lo, hi)| == hi - lo && forall k :: 0 <= k < hi - lo ==> Range(lo, hi)[k] == lo + k
  {
    if lo < hi { RangeIndex(lo, hi - 1); }
  }
}

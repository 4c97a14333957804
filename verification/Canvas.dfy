/** The celery canvas a step compiles to, and what that canvas means: which
    tasks it emits, in which order, and which of them wait for which. */
module Canvas {
  import opened Rows

  /** A signature: the work, the task id its results are reported under, and the
      row it was made from. */
  datatype Sig = Sig(task: TaskId, taskId: Uuid, step: Option<StepId>, work: Work)

  datatype Canvas = Leaf(sig: Sig) | Chain(parts: seq<Canvas>) | Group(parts: seq<Canvas>)

  function SigOf(tasks: seq<Task>, i: TaskId): Sig
    requires i < |tasks|
  {
    Sig(i, tasks[i].celeryId, tasks[i].step, tasks[i].work)
  }

  function Sigs(tasks: seq<Task>): seq<Sig> {
    seq(|tasks|, i requires 0 <= i < |tasks| => SigOf(tasks, i))
  }

  /** An empty chain or group, which a resumed parent leaves out. */
  predicate Empty(c: Canvas) { !c.Leaf? && c.parts == [] }

  /******* Building *******/

  /** The canvas of step `t` over the task rows `sel`, with signature `mk[i]` for
      row `i`.  `resume` drops empty parts (`keep` false), `retry` keeps them. */
  function Build(t: Tree, tasks: seq<Task>, sel: set<TaskId>, mk: seq<Sig>, keep: bool): Canvas
    requires |mk| == |tasks|
    decreases t, 2
  {
    if !keep && !AnyIn(tasks, t, sel) then Group([]) else BuildChildren(t, tasks, sel, mk, keep)
  }

  function BuildChildren(t: Tree, tasks: seq<Task>, sel: set<TaskId>, mk: seq<Sig>, keep: bool): Canvas
    requires |mk| == |tasks|
    decreases t, 1
  {
    if Own(tasks, t.id, sel) == [] && t.steps == [] then Group([])
    else
      var parts := Parts(t, tasks, sel, mk, keep, ResultList(t, tasks, sel));
      if t.parallel then Group(parts) else Chain(parts)
  }

  function Parts(t: Tree, tasks: seq<Task>, sel: set<TaskId>, mk: seq<Sig>, keep: bool, items: seq<Child>): seq<Canvas>
    requires |mk| == |tasks|
    requires forall c :: c in items ==> IsItem(t, tasks, sel, c)
    decreases t, 0, |items|
  {
    if items == [] then []
    else
      var n := |items| - 1;
      var rest := Parts(t, tasks, sel, mk, keep, items[..n]);
      var y := Part(t, tasks, sel, mk, keep, items[n]);
      if !keep && Empty(y) then rest else rest + [y]
  }

  function Part(t: Tree, tasks: seq<Task>, sel: set<TaskId>, mk: seq<Sig>, keep: bool, c: Child): Canvas
    requires |mk| == |tasks|
    requires IsItem(t, tasks, sel, c)
    decreases t, 0, 0
  {
    if c.isTask then Leaf(mk[c.row])
    else Build(t.steps[IndexOf(t.steps, c.row)], tasks, sel, mk, keep)
  }

  /** What `resume` emits from the rows it leaves behind. */
  function Plan(t: Tree, tasks: seq<Task>): Canvas {
    Build(t, tasks, Pending(tasks), Sigs(tasks), false)
  }

  /** What `run` emits from the rows it leaves behind. */
  function RunPlan(t: Tree, tasks: seq<Task>): Canvas {
    BuildChildren(t, tasks, Pending(tasks), Sigs(tasks), false)
  }

  /******* What a canvas emits *******/

  function Leaves(c: Canvas): seq<Sig>
    decreases c, 1
  {
    if c.Leaf? then [c.sig] else LeavesOf(c.parts)
  }

  function LeavesOf(cs: seq<Canvas>): seq<Sig>
    decreases cs, 0
  {
    if cs == [] then [] else LeavesOf(cs[..|cs| - 1]) + Leaves(cs[|cs| - 1])
  }

  /** The rows of `sel` in the subtree of `t`, read step by step in execution order. */
  function LeafOrder(t: Tree, tasks: seq<Task>, sel: set<TaskId>): seq<TaskId>
    decreases t, 1
  {
    OrderOf(t, tasks, sel, ResultList(t, tasks, sel))
  }

  function OrderOf(t: Tree, tasks: seq<Task>, sel: set<TaskId>, items: seq<Child>): seq<TaskId>
    requires forall c :: c in items ==> IsItem(t, tasks, sel, c)
    decreases t, 0, |items|
  {
    if items == [] then []
    else
      var n := |items| - 1;
      OrderOf(t, tasks, sel, items[..n]) + OrderAt(t, tasks, sel, items[n])
  }

  function OrderAt(t: Tree, tasks: seq<Task>, sel: set<TaskId>, c: Child): seq<TaskId>
    requires IsItem(t, tasks, sel, c)
    decreases t, 0, 0
  {
    if c.isTask then [c.row] else LeafOrder(t.steps[IndexOf(t.steps, c.row)], tasks, sel)
  }

  function Pick(mk: seq<Sig>, rows: seq<TaskId>): seq<Sig>
    requires forall i: nat :: i in rows ==> i < |mk|
  {
    seq(|rows|, k requires 0 <= k < |rows| && rows[k] in rows => mk[rows[k]])
  }

  /******* Which child a row sits under *******/

  /** The child step whose subtree holds step `s`. */
  ghost function KidOf(t: Tree, s: StepId): (i: nat)
    requires s in Ids(t) && s != t.id
    ensures i < |t.steps| && s in Ids(t.steps[i])
  {
    var i :| 0 <= i < |t.steps| && s in Ids(t.steps[i]);
    i
  }

  ghost predicate Selected(t: Tree, tasks: seq<Task>, sel: set<TaskId>, x: TaskId) {
    x < |tasks| && InTree(tasks[x], t) && x in sel
  }

  /** The child of `t` under which row `x` sits: itself or a child step. */
  ghost function Holder(t: Tree, tasks: seq<Task>, x: TaskId): Child
    requires x < |tasks| && InTree(tasks[x], t)
  {
    if tasks[x].step.value == t.id then TaskItem(tasks, x)
    else StepItem(t.steps[KidOf(t, tasks[x].step.value)])
  }

  lemma {:induction false} KidUnique(t: Tree, i: nat, s: StepId)
    requires WellFormed(t) && i < |t.steps| && s in Ids(t.steps[i])
    ensures s in Ids(t) && s != t.id && KidOf(t, s) == i
    ensures IndexOf(t.steps, t.steps[i].id) == i
  {
    var j := KidOf(t, s);
    var k := IndexOf(t.steps, t.steps[i].id);
    assert t.steps[i].id in Ids(t.steps[i]) && t.steps[k].id in Ids(t.steps[k]);
  }

  lemma {:induction false} HolderIsItem(t: Tree, tasks: seq<Task>, sel: set<TaskId>, x: TaskId)
    requires Selected(t, tasks, sel, x)
    ensures IsItem(t, tasks, sel, Holder(t, tasks, x))
  {
  }

  /******* LeafOrder lists exactly the selected rows, once *******/

  lemma {:induction false} OrderAtMembers(t: Tree, tasks: seq<Task>, sel: set<TaskId>, c: Child, x: TaskId)
    requires WellFormed(t) && IsItem(t, tasks, sel, c)
    ensures x in OrderAt(t, tasks, sel, c) <==> Selected(t, tasks, sel, x) && Holder(t, tasks, x) == c
    decreases t, 0, 0
  {
    if !c.isTask {
      var i := IndexOf(t.steps, c.row);
      LeafOrderMembers(t.steps[i], tasks, sel, x);
      if Selected(t.steps[i], tasks, sel, x) {
        KidUnique(t, i, tasks[x].step.value);
      }
      if Selected(t, tasks, sel, x) && Holder(t, tasks, x) == c {
        var k := KidOf(t, tasks[x].step.value);
        KidUnique(t, k, t.steps[k].id);
      }
    }
  }

  lemma {:induction false} OrderOfMembers(t: Tree, tasks: seq<Task>, sel: set<TaskId>, items: seq<Child>, x: TaskId)
    requires WellFormed(t) && forall c :: c in items ==> IsItem(t, tasks, sel, c)
    ensures x in OrderOf(t, tasks, sel, items) <==> Selected(t, tasks, sel, x) && Holder(t, tasks, x) in items
    decreases t, 0, |items|
  {
    if items != [] {
      var n := |items| - 1;
      OrderOfMembers(t, tasks, sel, items[..n], x);
      OrderAtMembers(t, tasks, sel, items[n], x);
    }
  }

  lemma {:induction false} LeafOrderMembers(t: Tree, tasks: seq<Task>, sel: set<TaskId>, x: TaskId)
    requires WellFormed(t)
    ensures x in LeafOrder(t, tasks, sel) <==> Selected(t, tasks, sel, x)
    decreases t, 1
  {
    OrderOfMembers(t, tasks, sel, ResultList(t, tasks, sel), x);
    if Selected(t, tasks, sel, x) {
      HolderIsItem(t, tasks, sel, x);
    }
  }

  lemma {:induction false} OrderOfDistinct(t: Tree, tasks: seq<Task>, sel: set<TaskId>, items: seq<Child>)
    requires WellFormed(t) && Sorted(items) && forall c :: c in items ==> IsItem(t, tasks, sel, c)
    ensures Distinct(OrderOf(t, tasks, sel, items))
    decreases t, 0, |items|
  {
    if items != [] {
      var n := |items| - 1;
      OrderOfDistinct(t, tasks, sel, items[..n]);
      var c := items[n];
      assert IsItem(t, tasks, sel, c);
      if !c.isTask {
        LeafOrderDistinct(t.steps[IndexOf(t.steps, c.row)], tasks, sel);
      }
      var a, b := OrderOf(t, tasks, sel, items[..n]), OrderAt(t, tasks, sel, c);
      forall k, l | 0 <= k < |a| && 0 <= l < |b| ensures a[k] != b[l] {
        assert a[k] in a && b[l] in b;
        OrderOfMembers(t, tasks, sel, items[..n], a[k]);
        OrderAtMembers(t, tasks, sel, c, b[l]);
      }
    }
  }

  /** No row is listed twice. */
  lemma {:induction false} LeafOrderDistinct(t: Tree, tasks: seq<Task>, sel: set<TaskId>)
    requires WellFormed(t)
    ensures Distinct(LeafOrder(t, tasks, sel))
    decreases t, 1
  {
    OrderOfDistinct(t, tasks, sel, ResultList(t, tasks, sel));
  }

  /******* The canvas emits LeafOrder *******/

  lemma {:induction false} PickConcat(mk: seq<Sig>, a: seq<TaskId>, b: seq<TaskId>)
    requires forall i: nat :: i in a + b ==> i < |mk|
    ensures forall i: nat :: i in a || i in b ==> i in a + b
    ensures Pick(mk, a + b) == Pick(mk, a) + Pick(mk, b)
  {
  }

  lemma {:induction false} PartLeaves(t: Tree, tasks: seq<Task>, sel: set<TaskId>, mk: seq<Sig>, keep: bool, c: Child)
    requires WellFormed(t) && |mk| == |tasks| && IsItem(t, tasks, sel, c)
    ensures forall i: nat :: i in OrderAt(t, tasks, sel, c) ==> i < |mk|
    ensures Leaves(Part(t, tasks, sel, mk, keep, c)) == Pick(mk, OrderAt(t, tasks, sel, c))
    decreases t, 0, 0
  {
    if !c.isTask {
      BuildLeaves(t.steps[IndexOf(t.steps, c.row)], tasks, sel, mk, keep);
    }
  }

  lemma {:induction false} PartsLeaves(t: Tree, tasks: seq<Task>, sel: set<TaskId>, mk: seq<Sig>, keep: bool,
                                       items: seq<Child>)
    requires WellFormed(t) && |mk| == |tasks|
    requires forall c :: c in items ==> IsItem(t, tasks, sel, c)
    ensures forall i: nat :: i in OrderOf(t, tasks, sel, items) ==> i < |mk|
    ensures LeavesOf(Parts(t, tasks, sel, mk, keep, items)) == Pick(mk, OrderOf(t, tasks, sel, items))
    decreases t, 0, |items|
  {
    if items != [] {
      var n := |items| - 1;
      PartsLeaves(t, tasks, sel, mk, keep, items[..n]);
      PartLeaves(t, tasks, sel, mk, keep, items[n]);
      var rest := Parts(t, tasks, sel, mk, keep, items[..n]);
      var y := Part(t, tasks, sel, mk, keep, items[n]);
      assert (rest + [y])[..|rest|] == rest;
      PickConcat(mk, OrderOf(t, tasks, sel, items[..n]), OrderAt(t, tasks, sel, items[n]));
    }
  }

  lemma {:induction false} NothingSelected(t: Tree, tasks: seq<Task>, sel: set<TaskId>)
    requires WellFormed(t)
    requires !AnyIn(tasks, t, sel) || (Own(tasks, t.id, sel) == [] && t.steps == [])
    ensures LeafOrder(t, tasks, sel) == []
  {
    var order := LeafOrder(t, tasks, sel);
    if order != [] {
      LeafOrderMembers(t, tasks, sel, order[0]);
    }
  }

  /** The signatures of a built canvas, left to right, are those of LeafOrder:
      dropping empty parts loses nothing. */
  lemma {:induction false} BuildLeaves(t: Tree, tasks: seq<Task>, sel: set<TaskId>, mk: seq<Sig>, keep: bool)
    requires WellFormed(t) && |mk| == |tasks|
    ensures forall i: nat :: i in LeafOrder(t, tasks, sel) ==> i < |mk|
    ensures Leaves(Build(t, tasks, sel, mk, keep)) == Pick(mk, LeafOrder(t, tasks, sel))
    ensures Leaves(BuildChildren(t, tasks, sel, mk, keep)) == Pick(mk, LeafOrder(t, tasks, sel))
    decreases t, 1
  {
    var items := ResultList(t, tasks, sel);
    PartsLeaves(t, tasks, sel, mk, keep, items);
    if !AnyIn(tasks, t, sel) || (Own(tasks, t.id, sel) == [] && t.steps == []) {
      NothingSelected(t, tasks, sel);
    }
    var parts := Parts(t, tasks, sel, mk, keep, items);
    assert Leaves(Chain(parts)) == Leaves(Group(parts)) == LeavesOf(parts);
    assert Leaves(Group([])) == [];
  }

  /******* A canvas depends only on the selected rows of its subtree *******/

  /** Both selections pick the same rows of the subtree, at the same places. */
  ghost predicate SameSelection(t: Tree, a: seq<Task>, selA: set<TaskId>, b: seq<Task>, selB: set<TaskId>) {
    forall i: nat ::
      && (Selected(t, a, selA, i) <==> Selected(t, b, selB, i))
      && (Selected(t, a, selA, i) ==> a[i].step == b[i].step && a[i].pos == b[i].pos && a[i].created == b[i].created)
  }

  lemma {:induction false} SameItems(t: Tree, a: seq<Task>, selA: set<TaskId>, b: seq<Task>, selB: set<TaskId>)
    requires SameSelection(t, a, selA, b, selB)
    ensures forall c :: IsItem(t, a, selA, c) ==> IsItem(t, b, selB, c)
    ensures Own(a, t.id, selA) != [] ==> Own(b, t.id, selB) != []
    ensures AnyIn(a, t, selA) ==> AnyIn(b, t, selB)
  {
    forall c | IsItem(t, a, selA, c) ensures IsItem(t, b, selB, c) {
      assert c.isTask ==> Selected(t, a, selA, c.row);
    }
    var rows := Own(a, t.id, selA);
    if rows != [] {
      assert rows[0] in rows && Selected(t, a, selA, rows[0]);
      assert rows[0] in Own(b, t.id, selB);
    }
    if i: nat :| i < |a| && InTree(a[i], t) && i in selA { assert Selected(t, a, selA, i); }
  }

  lemma {:induction false} SameInKids(t: Tree, a: seq<Task>, selA: set<TaskId>, b: seq<Task>, selB: set<TaskId>, k: nat)
    requires SameSelection(t, a, selA, b, selB) && k < |t.steps|
    ensures SameSelection(t.steps[k], a, selA, b, selB)
  {
    forall i: nat | Selected(t.steps[k], a, selA, i) || Selected(t.steps[k], b, selB, i)
      ensures Selected(t.steps[k], a, selA, i) && Selected(t.steps[k], b, selB, i)
      ensures a[i].step == b[i].step && a[i].pos == b[i].pos && a[i].created == b[i].created
    {
      assert Selected(t, a, selA, i) || Selected(t, b, selB, i);
    }
  }

  lemma {:induction false} SameResultList(t: Tree, a: seq<Task>, selA: set<TaskId>, b: seq<Task>, selB: set<TaskId>)
    requires WellFormed(t) && SameSelection(t, a, selA, b, selB)
    ensures ResultList(t, a, selA) == ResultList(t, b, selB)
    ensures Own(a, t.id, selA) == [] <==> Own(b, t.id, selB) == []
    ensures AnyIn(a, t, selA) <==> AnyIn(b, t, selB)
  {
    SameItems(t, a, selA, b, selB);
    SameItems(t, b, selB, a, selA);
    SortedUnique(ResultList(t, a, selA), ResultList(t, b, selB));
  }

  lemma {:induction false} LeafOrderFrame(t: Tree, a: seq<Task>, selA: set<TaskId>, b: seq<Task>, selB: set<TaskId>)
    requires WellFormed(t) && SameSelection(t, a, selA, b, selB)
    ensures LeafOrder(t, a, selA) == LeafOrder(t, b, selB)
    decreases t, 1
  {
    SameResultList(t, a, selA, b, selB);
    OrderOfFrame(t, a, selA, b, selB, ResultList(t, a, selA));
  }

  lemma {:induction false} OrderOfFrame(t: Tree, a: seq<Task>, selA: set<TaskId>, b: seq<Task>, selB: set<TaskId>,
                                        items: seq<Child>)
    requires WellFormed(t) && SameSelection(t, a, selA, b, selB)
    requires forall c :: c in items ==> IsItem(t, a, selA, c) && IsItem(t, b, selB, c)
    ensures OrderOf(t, a, selA, items) == OrderOf(t, b, selB, items)
    decreases t, 0, |items|
  {
    if items != [] {
      var n := |items| - 1;
      OrderOfFrame(t, a, selA, b, selB, items[..n]);
      if !items[n].isTask {
        assert IsItem(t, a, selA, items[n]);
        var k := IndexOf(t.steps, items[n].row);
        SameInKids(t, a, selA, b, selB, k);
        LeafOrderFrame(t.steps[k], a, selA, b, selB);
      }
    }
  }

  ghost predicate SameSigs(t: Tree, a: seq<Task>, sel: set<TaskId>, mk: seq<Sig>, nk: seq<Sig>) {
    forall i: nat :: Selected(t, a, sel, i) && i < |mk| ==> i < |nk| && mk[i] == nk[i]
  }

  lemma {:induction false} BuildFrame(t: Tree, a: seq<Task>, selA: set<TaskId>, mk: seq<Sig>,
                                      b: seq<Task>, selB: set<TaskId>, nk: seq<Sig>, keep: bool)
    requires WellFormed(t) && SameSelection(t, a, selA, b, selB)
    requires |mk| == |a| && |nk| == |b| && SameSigs(t, a, selA, mk, nk)
    ensures Build(t, a, selA, mk, keep) == Build(t, b, selB, nk, keep)
    ensures BuildChildren(t, a, selA, mk, keep) == BuildChildren(t, b, selB, nk, keep)
    decreases t, 1
  {
    SameResultList(t, a, selA, b, selB);
    PartsFrame(t, a, selA, mk, b, selB, nk, keep, ResultList(t, a, selA));
  }

  lemma {:induction false} PartsFrame(t: Tree, a: seq<Task>, selA: set<TaskId>, mk: seq<Sig>,
                                      b: seq<Task>, selB: set<TaskId>, nk: seq<Sig>, keep: bool, items: seq<Child>)
    requires WellFormed(t) && SameSelection(t, a, selA, b, selB)
    requires |mk| == |a| && |nk| == |b| && SameSigs(t, a, selA, mk, nk)
    requires forall c :: c in items ==> IsItem(t, a, selA, c) && IsItem(t, b, selB, c)
    ensures Parts(t, a, selA, mk, keep, items) == Parts(t, b, selB, nk, keep, items)
    decreases t, 0, |items|
  {
    if items != [] {
      var n := |items| - 1;
      PartsFrame(t, a, selA, mk, b, selB, nk, keep, items[..n]);
      PartFrame(t, a, selA, mk, b, selB, nk, keep, items[n]);
    }
  }

  lemma {:induction false} PartFrame(t: Tree, a: seq<Task>, selA: set<TaskId>, mk: seq<Sig>,
                                     b: seq<Task>, selB: set<TaskId>, nk: seq<Sig>, keep: bool, c: Child)
    requires WellFormed(t) && SameSelection(t, a, selA, b, selB)
    requires |mk| == |a| && |nk| == |b| && SameSigs(t, a, selA, mk, nk)
    requires IsItem(t, a, selA, c) && IsItem(t, b, selB, c)
    ensures Part(t, a, selA, mk, keep, c) == Part(t, b, selB, nk, keep, c)
    decreases t, 0, 0
  {
    if c.isTask {
      assert Selected(t, a, selA, c.row);
    } else {
      var i := IndexOf(t.steps, c.row);
      SameInKids(t, a, selA, b, selB, i);
      forall k: nat | Selected(t.steps[i], a, selA, k) ensures Selected(t, a, selA, k) {}
      BuildFrame(t.steps[i], a, selA, mk, b, selB, nk, keep);
    }
  }
}

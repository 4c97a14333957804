/** Which tasks of a canvas wait for which, and how that order is read off the
    step tree. */
module Ordering {
  import opened Rows
  import opened Canvas

  /******* The order a canvas imposes *******/

  /** `y` starts only after `x` has succeeded. */
  ghost predicate Precedes(c: Canvas, x: Sig, y: Sig)
    decreases c, 1
  {
    match c
    case Leaf(_) => false
    case Chain(parts) => Crosses(parts, x, y) || Inside(parts, x, y)
    case Group(parts) => Inside(parts, x, y)
  }

  /** `x` lies in an earlier part than `y`. */
  ghost predicate Crosses(cs: seq<Canvas>, x: Sig, y: Sig) {
    cs != [] &&
    var rest := cs[..|cs| - 1];
    Crosses(rest, x, y) || (x in LeavesOf(rest) && y in Leaves(cs[|cs| - 1]))
  }

  /** Some part by itself puts `x` before `y`. */
  ghost predicate Inside(cs: seq<Canvas>, x: Sig, y: Sig)
    decreases cs, 0
  {
    cs != [] && (Inside(cs[..|cs| - 1], x, y) || Precedes(cs[|cs| - 1], x, y))
  }

  /******* The order the tree imposes *******/

  /** The order at the lowest common ancestor of the two tasks: none if that step
      is parallel, else the sort order of the children they sit under. */
  ghost predicate HappensBefore(t: Tree, tasks: seq<Task>, x: TaskId, y: TaskId)
    requires x < |tasks| && InTree(tasks[x], t)
    requires y < |tasks| && InTree(tasks[y], t)
  {
    var a, b := Holder(t, tasks, x), Holder(t, tasks, y);
    if a != b then !t.parallel && Before(a, b)
    else if tasks[x].step.value == t.id || tasks[y].step.value == t.id then false
    else
      var k := KidOf(t, tasks[x].step.value);
      InTree(tasks[y], t.steps[k]) && HappensBefore(t.steps[k], tasks, x, y)
  }

  /** Distinct selected rows get distinct signatures. */
  ghost predicate Injective(mk: seq<Sig>, sel: set<TaskId>) {
    forall i, j :: 0 <= i < |mk| && 0 <= j < |mk| && i in sel && j in sel && mk[i] == mk[j] ==> i == j
  }

  lemma {:induction false} SigsInjective(tasks: seq<Task>, sel: set<TaskId>)
    ensures Injective(Sigs(tasks), sel)
  {
    forall i, j | 0 <= i < |tasks| && 0 <= j < |tasks| && Sigs(tasks)[i] == Sigs(tasks)[j]
      ensures i == j
    {
      assert Sigs(tasks)[i].task == i && Sigs(tasks)[j].task == j;
    }
  }

  /******* They are the same order *******/

  lemma {:induction false} PickMember(mk: seq<Sig>, sel: set<TaskId>, rows: seq<TaskId>, x: TaskId)
    requires forall i: nat :: i in rows ==> i < |mk| && i in sel
    requires x < |mk| && x in sel && Injective(mk, sel)
    ensures mk[x] in Pick(mk, rows) <==> x in rows
  {
    if x in rows {
      var k :| 0 <= k < |rows| && rows[k] == x;
      assert Pick(mk, rows)[k] == mk[x];
    }
    if mk[x] in Pick(mk, rows) {
      var k :| 0 <= k < |rows| && Pick(mk, rows)[k] == mk[x];
      assert rows[k] in rows;
    }
  }

  lemma {:induction false} PartHolds(t: Tree, tasks: seq<Task>, sel: set<TaskId>, mk: seq<Sig>, keep: bool, c: Child,
                                     x: TaskId)
    requires WellFormed(t) && |mk| == |tasks| && Injective(mk, sel)
    requires Selected(t, tasks, sel, x) && IsItem(t, tasks, sel, c)
    ensures mk[x] in Leaves(Part(t, tasks, sel, mk, keep, c)) <==> Holder(t, tasks, x) == c
  {
    PartLeaves(t, tasks, sel, mk, keep, c);
    OrderAtMembers(t, tasks, sel, c, x);
    var rows := OrderAt(t, tasks, sel, c);
    forall i: nat | i in rows ensures i in sel { OrderAtMembers(t, tasks, sel, c, i); }
    PickMember(mk, sel, rows, x);
  }

  lemma {:induction false} PartsHold(t: Tree, tasks: seq<Task>, sel: set<TaskId>, mk: seq<Sig>, keep: bool,
                                     items: seq<Child>, x: TaskId)
    requires WellFormed(t) && |mk| == |tasks| && Injective(mk, sel)
    requires Selected(t, tasks, sel, x) && forall c :: c in items ==> IsItem(t, tasks, sel, c)
    ensures mk[x] in LeavesOf(Parts(t, tasks, sel, mk, keep, items)) <==> Holder(t, tasks, x) in items
  {
    PartsLeaves(t, tasks, sel, mk, keep, items);
    OrderOfMembers(t, tasks, sel, items, x);
    var rows := OrderOf(t, tasks, sel, items);
    forall i: nat | i in rows ensures i in sel { OrderOfMembers(t, tasks, sel, items, i); }
    PickMember(mk, sel, rows, x);
  }

  /** One part more at the end, dropped if empty: `hx` and `hy` are the items whose
      parts hold `x` and `y`. */
  lemma {:induction false} CrossesNext(rest: seq<Canvas>, last: Canvas, keep: bool, items: seq<Child>,
                                       x: Sig, y: Sig, hx: Child, hy: Child)
    requires Sorted(items) && items != []
    requires Crosses(rest, x, y) <==> hx in items[..|items| - 1] && hy in items[..|items| - 1] && Before(hx, hy)
    requires x in LeavesOf(rest) <==> hx in items[..|items| - 1]
    requires y in Leaves(last) <==> hy == items[|items| - 1]
    ensures Crosses(if !keep && Empty(last) then rest else rest + [last], x, y)
            <==> hx in items && hy in items && Before(hx, hy)
  {
    assert (rest + [last])[..|rest|] == rest;
    assert Empty(last) ==> Leaves(last) == [];
    SortedSnoc(items, hx, hy);
  }

  lemma {:induction false} InsideNext(rest: seq<Canvas>, last: Canvas, keep: bool, items: seq<Child>,
                                      x: Sig, y: Sig, hx: Child, hy: Child, before: bool)
    requires items != []
    requires Inside(rest, x, y) <==> hx == hy && hx in items[..|items| - 1] && before
    requires Precedes(last, x, y) <==> hx == hy == items[|items| - 1] && before
    ensures Inside(if !keep && Empty(last) then rest else rest + [last], x, y) <==> hx == hy && hx in items && before
  {
    var n := |items| - 1;
    assert (rest + [last])[..|rest|] == rest;
    assert Empty(last) ==> !Precedes(last, x, y);
    assert items == items[..n] + [items[n]];
  }

  /** In a sorted list, being before the last item is being in the rest. */
  lemma {:induction false} SortedSnoc(items: seq<Child>, a: Child, b: Child)
    requires Sorted(items) && items != []
    ensures var rest, last := items[..|items| - 1], items[|items| - 1];
            (a in items && b in items && Before(a, b))
            <==> ((a in rest && b in rest && Before(a, b)) || (a in rest && b == last))
  {
    var n := |items| - 1;
    if a in items && b in items && Before(a, b) {
      var i :| 0 <= i <= n && items[i] == a;
      var j :| 0 <= j <= n && items[j] == b;
      assert i < j;
      assert items[..n][i] == a;
      if j < n { assert items[..n][j] == b; }
    }
    if a in items[..n] {
      var i :| 0 <= i < n && items[i] == a;
      assert items[n] in items;
    }
  }

  lemma {:induction false} CrossesIff(t: Tree, tasks: seq<Task>, sel: set<TaskId>, mk: seq<Sig>, keep: bool,
                                      items: seq<Child>, x: TaskId, y: TaskId)
    requires WellFormed(t) && |mk| == |tasks| && Injective(mk, sel)
    requires Sorted(items) && forall c :: c in items ==> IsItem(t, tasks, sel, c)
    requires Selected(t, tasks, sel, x) && Selected(t, tasks, sel, y)
    ensures Crosses(Parts(t, tasks, sel, mk, keep, items), mk[x], mk[y])
            <==> Holder(t, tasks, x) in items && Holder(t, tasks, y) in items
                 && Before(Holder(t, tasks, x), Holder(t, tasks, y))
    decreases |items|
  {
    if items != [] {
      var n := |items| - 1;
      assert items[n] in items;
      CrossesIff(t, tasks, sel, mk, keep, items[..n], x, y);
      CrossesLast(t, tasks, sel, mk, keep, items, x, y);
    }
  }

  lemma {:induction false} CrossesLast(t: Tree, tasks: seq<Task>, sel: set<TaskId>, mk: seq<Sig>, keep: bool,
                                       items: seq<Child>, x: TaskId, y: TaskId)
    requires WellFormed(t) && |mk| == |tasks| && Injective(mk, sel)
    requires Sorted(items) && items != [] && forall c :: c in items ==> IsItem(t, tasks, sel, c)
    requires Selected(t, tasks, sel, x) && Selected(t, tasks, sel, y)
    requires Crosses(Parts(t, tasks, sel, mk, keep, items[..|items| - 1]), mk[x], mk[y])
             <==> Holder(t, tasks, x) in items[..|items| - 1] && Holder(t, tasks, y) in items[..|items| - 1]
                  && Before(Holder(t, tasks, x), Holder(t, tasks, y))
    ensures Crosses(Parts(t, tasks, sel, mk, keep, items), mk[x], mk[y])
            <==> Holder(t, tasks, x) in items && Holder(t, tasks, y) in items
                 && Before(Holder(t, tasks, x), Holder(t, tasks, y))
  {
    var n := |items| - 1;
    assert items[n] in items;
    PartsHold(t, tasks, sel, mk, keep, items[..n], x);
    PartHolds(t, tasks, sel, mk, keep, items[n], y);
    CrossesNext(Parts(t, tasks, sel, mk, keep, items[..n]), Part(t, tasks, sel, mk, keep, items[n]), keep,
                items, mk[x], mk[y], Holder(t, tasks, x), Holder(t, tasks, y));
  }

  lemma {:induction false} InsideIff(t: Tree, tasks: seq<Task>, sel: set<TaskId>, mk: seq<Sig>, keep: bool,
                                     items: seq<Child>, x: TaskId, y: TaskId)
    requires WellFormed(t) && |mk| == |tasks| && Injective(mk, sel)
    requires Sorted(items) && forall c :: c in items ==> IsItem(t, tasks, sel, c)
    requires Selected(t, tasks, sel, x) && Selected(t, tasks, sel, y)
    ensures Inside(Parts(t, tasks, sel, mk, keep, items), mk[x], mk[y])
            <==> Holder(t, tasks, x) == Holder(t, tasks, y) && Holder(t, tasks, x) in items
                 && HappensBefore(t, tasks, x, y)
    decreases t, 0, |items|
  {
    forall c | c in items
      ensures Precedes(Part(t, tasks, sel, mk, keep, c), mk[x], mk[y])
              <==> Holder(t, tasks, x) == Holder(t, tasks, y) == c && HappensBefore(t, tasks, x, y)
    {
      PartPrecedes(t, tasks, sel, mk, keep, c, x, y);
    }
    InsideAll(t, tasks, sel, mk, keep, items, x, y);
  }

  lemma {:induction false} InsideAll(t: Tree, tasks: seq<Task>, sel: set<TaskId>, mk: seq<Sig>, keep: bool,
                                     items: seq<Child>, x: TaskId, y: TaskId)
    requires |mk| == |tasks| && forall c :: c in items ==> IsItem(t, tasks, sel, c)
    requires Selected(t, tasks, sel, x) && Selected(t, tasks, sel, y)
    requires forall c :: c in items ==>
               (Precedes(Part(t, tasks, sel, mk, keep, c), mk[x], mk[y])
                <==> Holder(t, tasks, x) == Holder(t, tasks, y) == c && HappensBefore(t, tasks, x, y))
    ensures Inside(Parts(t, tasks, sel, mk, keep, items), mk[x], mk[y])
            <==> Holder(t, tasks, x) == Holder(t, tasks, y) && Holder(t, tasks, x) in items
                 && HappensBefore(t, tasks, x, y)
    decreases |items|
  {
    if items != [] {
      assert items[|items| - 1] in items;
      InsideAll(t, tasks, sel, mk, keep, items[..|items| - 1], x, y);
      InsideLast(t, tasks, sel, mk, keep, items, x, y);
    }
  }

  lemma {:induction false} InsideLast(t: Tree, tasks: seq<Task>, sel: set<TaskId>, mk: seq<Sig>, keep: bool,
                                      items: seq<Child>, x: TaskId, y: TaskId)
    requires |mk| == |tasks| && items != [] && forall c :: c in items ==> IsItem(t, tasks, sel, c)
    requires Selected(t, tasks, sel, x) && Selected(t, tasks, sel, y)
    requires Inside(Parts(t, tasks, sel, mk, keep, items[..|items| - 1]), mk[x], mk[y])
             <==> Holder(t, tasks, x) == Holder(t, tasks, y) && Holder(t, tasks, x) in items[..|items| - 1]
                  && HappensBefore(t, tasks, x, y)
    requires items[|items| - 1] in items
    requires Precedes(Part(t, tasks, sel, mk, keep, items[|items| - 1]), mk[x], mk[y])
             <==> Holder(t, tasks, x) == Holder(t, tasks, y) == items[|items| - 1] && HappensBefore(t, tasks, x, y)
    ensures Inside(Parts(t, tasks, sel, mk, keep, items), mk[x], mk[y])
            <==> Holder(t, tasks, x) == Holder(t, tasks, y) && Holder(t, tasks, x) in items
                 && HappensBefore(t, tasks, x, y)
  {
    var n := |items| - 1;
    InsideNext(Parts(t, tasks, sel, mk, keep, items[..n]), Part(t, tasks, sel, mk, keep, items[n]), keep,
               items, mk[x], mk[y], Holder(t, tasks, x), Holder(t, tasks, y), HappensBefore(t, tasks, x, y));
  }

  lemma {:induction false} PartPrecedes(t: Tree, tasks: seq<Task>, sel: set<TaskId>, mk: seq<Sig>, keep: bool,
                                        c: Child, x: TaskId, y: TaskId)
    requires WellFormed(t) && |mk| == |tasks| && Injective(mk, sel) && IsItem(t, tasks, sel, c)
    requires Selected(t, tasks, sel, x) && Selected(t, tasks, sel, y)
    ensures Precedes(Part(t, tasks, sel, mk, keep, c), mk[x], mk[y])
            <==> Holder(t, tasks, x) == Holder(t, tasks, y) == c && HappensBefore(t, tasks, x, y)
    decreases t, 0, 0
  {
    if !c.isTask {
      var i := IndexOf(t.steps, c.row);
      var part := Part(t, tasks, sel, mk, keep, c);
      PartHolds(t, tasks, sel, mk, keep, c, x);
      PartHolds(t, tasks, sel, mk, keep, c, y);
      if Precedes(part, mk[x], mk[y]) { PrecedesLeaves(part, mk[x], mk[y]); }
      if Holder(t, tasks, x) == Holder(t, tasks, y) == c {
        OrderAtMembers(t, tasks, sel, c, x);
        OrderAtMembers(t, tasks, sel, c, y);
        LeafOrderMembers(t.steps[i], tasks, sel, x);
        LeafOrderMembers(t.steps[i], tasks, sel, y);
        KidUnique(t, i, tasks[x].step.value);
        KidUnique(t, i, tasks[y].step.value);
        BuildOrder(t.steps[i], tasks, sel, mk, keep, x, y);
      }
    }
  }

  lemma {:induction false} PrecedesLeaves(c: Canvas, x: Sig, y: Sig)
    requires Precedes(c, x, y)
    ensures x in Leaves(c) && y in Leaves(c)
    decreases c, 1
  {
    if Inside(c.parts, x, y) { InsideLeaves(c.parts, x, y); } else { CrossesLeaves(c.parts, x, y); }
  }

  lemma {:induction false} InsideLeaves(cs: seq<Canvas>, x: Sig, y: Sig)
    requires Inside(cs, x, y)
    ensures x in LeavesOf(cs) && y in LeavesOf(cs)
    decreases cs, 0
  {
    var n := |cs| - 1;
    if Inside(cs[..n], x, y) { InsideLeaves(cs[..n], x, y); } else { PrecedesLeaves(cs[n], x, y); }
  }

  lemma {:induction false} CrossesLeaves(cs: seq<Canvas>, x: Sig, y: Sig)
    requires Crosses(cs, x, y)
    ensures x in LeavesOf(cs) && y in LeavesOf(cs)
  {
    var n := |cs| - 1;
    if Crosses(cs[..n], x, y) { CrossesLeaves(cs[..n], x, y); }
  }

  lemma {:induction false} PartsOrder(t: Tree, tasks: seq<Task>, sel: set<TaskId>, mk: seq<Sig>, keep: bool,
                                      x: TaskId, y: TaskId)
    requires WellFormed(t) && |mk| == |tasks| && Injective(mk, sel)
    requires Selected(t, tasks, sel, x) && Selected(t, tasks, sel, y)
    ensures var parts := Parts(t, tasks, sel, mk, keep, ResultList(t, tasks, sel));
            (Inside(parts, mk[x], mk[y]) || (!t.parallel && Crosses(parts, mk[x], mk[y])))
            <==> HappensBefore(t, tasks, x, y)
    decreases t, 1, 0
  {
    var items := ResultList(t, tasks, sel);
    HolderIsItem(t, tasks, sel, x);
    HolderIsItem(t, tasks, sel, y);
    CrossesIff(t, tasks, sel, mk, keep, items, x, y);
    InsideIff(t, tasks, sel, mk, keep, items, x, y);
  }

  /** Happens-before in a built canvas is the order at the lowest common ancestor. */
  lemma {:induction false} BuildOrder(t: Tree, tasks: seq<Task>, sel: set<TaskId>, mk: seq<Sig>, keep: bool,
                                      x: TaskId, y: TaskId)
    requires WellFormed(t) && |mk| == |tasks| && Injective(mk, sel)
    requires Selected(t, tasks, sel, x) && Selected(t, tasks, sel, y)
    ensures Precedes(Build(t, tasks, sel, mk, keep), mk[x], mk[y]) <==> HappensBefore(t, tasks, x, y)
    ensures Precedes(BuildChildren(t, tasks, sel, mk, keep), mk[x], mk[y]) <==> HappensBefore(t, tasks, x, y)
    decreases t, 1, 1
  {
    PartsOrder(t, tasks, sel, mk, keep, x, y);
    assert AnyIn(tasks, t, sel);
    assert t.steps == [] ==> x in Own(tasks, t.id, sel);
    assert Build(t, tasks, sel, mk, keep) == BuildChildren(t, tasks, sel, mk, keep);
  }
}

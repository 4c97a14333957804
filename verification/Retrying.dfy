/** Facts about retrying child by child: how the replacements made for each
    child add up to those of the step. */
module Retrying {
  import opened Rows
  import opened Canvas
  import opened Retries
  import opened Resuming

  /** The tables after a retry of row `i` was created and linked to it. */
  function WithRetry(a: seq<Task>, i: TaskId, created: nat, id: Uuid): seq<Task>
    requires i < |a|
  {
    (a + [RetryOf(a[i], created, id)])[i := a[i].(retried := Some(|a|))]
  }

  /** From `a` to `b` exactly the rows `sel` got their own new retry. */
  ghost predicate RetriedRows(sel: set<TaskId>, a: seq<Task>, b: seq<Task>) {
    && |a| <= |b|
    && (forall i :: i in sel ==> i < |a|)
    && (forall i: nat | i < |a| ::
          if i in sel then
            && b[i].retried.Some? && |a| <= b[i].retried.value < |b|
            && b[i] == a[i].(retried := b[i].retried)
            && var j := b[i].retried.value; b[j] == RetryOf(a[i], b[j].created, b[j].celeryId)
          else b[i] == a[i])
    && (forall i, k :: i in sel && k in sel && i != k ==> b[i].retried != b[k].retried)
    && (forall j :: |a| <= j < |b| ==> b[j].retried.None? && RetryAmong(sel, a, b, j))
  }

  ghost predicate RetryAmong(sel: set<TaskId>, a: seq<Task>, b: seq<Task>, j: TaskId)
    requires |a| <= |b| && forall i :: i in sel ==> i < |a|
  {
    exists i :: i in sel && b[i].retried == Some(j)
  }

  function LiveBelow(t: Tree, a: seq<Task>): set<TaskId> {
    set i | 0 <= i < |a| && Replaced(a[i], t)
  }

  lemma {:induction false} RowsOfTree(t: Tree, a: seq<Task>, b: seq<Task>)
    ensures RetriedRows(LiveBelow(t, a), a, b) <==> RetriedIn(t, a, b)
  {
    var sel := LiveBelow(t, a);
    if RetriedRows(sel, a, b) {
      forall j | |a| <= j < |b| ensures IsRetry(t, a, b, j) {
        assert RetryAmong(sel, a, b, j);
        var i :| i in sel && b[i].retried == Some(j);
        assert Replaced(a[i], t);
      }
    }
    if RetriedIn(t, a, b) {
      forall j | |a| <= j < |b| ensures RetryAmong(sel, a, b, j) {
        assert IsRetry(t, a, b, j);
        var i :| 0 <= i < |a| && Replaced(a[i], t) && b[i].retried == Some(j);
        assert i in sel;
      }
    }
  }

  lemma {:induction false} RetryOne(a: seq<Task>, i: TaskId, created: nat, id: Uuid)
    requires i < |a|
    ensures RetriedRows({i}, a, WithRetry(a, i, created, id))
  {
    var b := WithRetry(a, i, created, id);
    assert RetryAmong({i}, a, b, |a|);
  }

  lemma {:induction false} RetryBoth(x: set<TaskId>, y: set<TaskId>, a: seq<Task>, b: seq<Task>, c: seq<Task>)
    requires RetriedRows(x, a, b) && RetriedRows(y, b, c) && x !! y && forall i :: i in y ==> i < |a|
    ensures RetriedRows(x + y, a, c)
  {
    forall j | |a| <= j < |c| ensures c[j].retried.None? && RetryAmong(x + y, a, c, j) {
      if j < |b| {
        assert RetryAmong(x, a, b, j);
        var i :| i in x && b[i].retried == Some(j);
        assert i in x + y && c[i] == b[i];
      } else {
        assert RetryAmong(y, b, c, j);
        var i :| i in y && c[i].retried == Some(j);
        assert i in x + y;
      }
    }
  }

  /** Retries of tasks outside a subtree leave its rows, and add none to it. */
  lemma {:induction false} RetriedElsewhere(t: Tree, sel: set<TaskId>, a: seq<Task>, b: seq<Task>)
    requires RetriedRows(sel, a, b) && forall i :: i in sel ==> !InTree(a[i], t)
    ensures LiveBelow(t, a) == LiveBelow(t, b)
    ensures forall i :: 0 <= i < |b| && InTree(b[i], t) ==> i < |a| && b[i] == a[i]
    ensures SameSelection(t, b, Live(b), a, Live(a))
  {
    forall i: nat | |a| <= i < |b| ensures !InTree(b[i], t) {
      assert RetryAmong(sel, a, b, i);
    }
    forall i: nat | i < |a| && InTree(a[i], t) ensures b[i] == a[i] { assert i !in sel; }
  }

  /** A child step retried after other tasks gives the canvas of that step as
      read from the rows before. */
  lemma {:induction false} RetryPlanLater(t: Tree, sel: set<TaskId>, a: seq<Task>, b: seq<Task>, c: seq<Task>)
    requires WellFormed(t) && RetriedRows(sel, a, b) && RetriedIn(t, b, c)
    requires forall i :: i in sel ==> !InTree(a[i], t)
    ensures RetryPlan(t, b, c) == Build(t, a, Live(a), RetrySigs(a, c), true)
  {
    RetriedElsewhere(t, sel, a, b);
    BuildFrame(t, b, Live(b), RetrySigs(b, c), a, Live(a), RetrySigs(a, c), true);
  }

  /******* Child by child *******/

  /** The live rows under one child of `s`. */
  ghost function ItemRows(s: Tree, a: seq<Task>, c: Child): set<TaskId>
    requires IsItem(s, a, Live(a), c)
  {
    if c.isTask then {c.row} else LiveBelow(s.steps[IndexOf(s.steps, c.row)], a)
  }

  ghost function RowsOf(s: Tree, a: seq<Task>, items: seq<Child>): set<TaskId>
    requires forall c :: c in items ==> IsItem(s, a, Live(a), c)
  {
    if items == [] then {} else RowsOf(s, a, items[..|items| - 1]) + ItemRows(s, a, items[|items| - 1])
  }

  lemma {:induction false} ItemRowsHeld(s: Tree, a: seq<Task>, c: Child, i: TaskId)
    requires WellFormed(s) && IsItem(s, a, Live(a), c)
    ensures i in ItemRows(s, a, c) <==> Selected(s, a, Live(a), i) && Holder(s, a, i) == c
  {
    OrderAtMembers(s, a, Live(a), c, i);
    if !c.isTask { LeafOrderMembers(s.steps[IndexOf(s.steps, c.row)], a, Live(a), i); }
  }

  lemma {:induction false} RowsOfHeld(s: Tree, a: seq<Task>, items: seq<Child>, i: TaskId)
    requires WellFormed(s) && forall c :: c in items ==> IsItem(s, a, Live(a), c)
    ensures i in RowsOf(s, a, items) <==> Selected(s, a, Live(a), i) && Holder(s, a, i) in items
  {
    if items != [] {
      RowsOfHeld(s, a, items[..|items| - 1], i);
      ItemRowsHeld(s, a, items[|items| - 1], i);
    }
  }

  /** After `k` children: their live tasks retried, and their canvas parts built. */
  ghost predicate RetriedSoFar(s: Tree, a: seq<Task>, b: seq<Task>, items: seq<Child>, k: nat, parts: seq<Canvas>) {
    && k <= |items| && |a| <= |b|
    && (forall c :: c in items ==> IsItem(s, a, Live(a), c))
    && RetriedRows(RowsOf(s, a, items[..k]), a, b)
    && parts == Parts(s, a, Live(a), RetrySigs(a, b), true, items[..k])
  }

  lemma {:induction false} RetryStart(s: Tree, a: seq<Task>, items: seq<Child>)
    requires items == ResultList(s, a, Live(a))
    ensures RetriedSoFar(s, a, a, items, 0, [])
  {
    assert items[..0] == [];
  }

  /** The rows of the next child are untouched so far. */
  lemma {:induction false} RetryItem(s: Tree, a: seq<Task>, b: seq<Task>, items: seq<Child>, k: nat, parts: seq<Canvas>)
    requires WellFormed(s) && Sorted(items) && k < |items| && RetriedSoFar(s, a, b, items, k, parts)
    ensures items[k] in items && IsItem(s, a, Live(a), items[k])
    ensures RowsOf(s, a, items[..k]) !! ItemRows(s, a, items[k])
    ensures items[k].isTask ==> b[items[k].row] == a[items[k].row]
    ensures !items[k].isTask ==>
              forall i :: i in RowsOf(s, a, items[..k]) ==> !InTree(a[i], s.steps[IndexOf(s.steps, items[k].row)])
  {
    var c := items[k];
    assert c in items && c !in items[..k];
    forall i | i in RowsOf(s, a, items[..k]) ensures i !in ItemRows(s, a, c) {
      RowsOfHeld(s, a, items[..k], i);
      ItemRowsHeld(s, a, c, i);
    }
    forall i | i in RowsOf(s, a, items[..k]) && !c.isTask ensures !InTree(a[i], s.steps[IndexOf(s.steps, c.row)]) {
      RowsOfHeld(s, a, items[..k], i);
      assert i !in ItemRows(s, a, c);
    }
  }

  lemma {:induction false} RowsOfNext(s: Tree, a: seq<Task>, items: seq<Child>, k: nat)
    requires k < |items| && forall c :: c in items ==> IsItem(s, a, Live(a), c)
    ensures items[k] in items
    ensures RowsOf(s, a, items[..k + 1]) == RowsOf(s, a, items[..k]) + ItemRows(s, a, items[k])
  {
    assert items[..k + 1][..k] == items[..k] && items[..k + 1][k] == items[k];
  }

  lemma {:induction false} RetryPartsNext(s: Tree, a: seq<Task>, mk: seq<Sig>, items: seq<Child>, k: nat)
    requires k < |items| && |mk| == |a| && forall c :: c in items ==> IsItem(s, a, Live(a), c)
    ensures items[k] in items
    ensures Parts(s, a, Live(a), mk, true, items[..k + 1])
            == Parts(s, a, Live(a), mk, true, items[..k]) + [Part(s, a, Live(a), mk, true, items[k])]
  {
    assert items[..k + 1][..k] == items[..k] && items[..k + 1][k] == items[k];
  }

  /** The signatures of rows already retried stay as they are. */
  lemma {:induction false} EarlierRetriesKept(s: Tree, x: set<TaskId>, y: set<TaskId>, a: seq<Task>, b: seq<Task>,
                                              c: seq<Task>, items: seq<Child>)
    requires WellFormed(s) && forall d :: d in items ==> IsItem(s, a, Live(a), d)
    requires x == RowsOf(s, a, items) && RetriedRows(x, a, b) && RetriedRows(y, b, c) && x !! y
    requires forall i :: i in y ==> i < |a|
    ensures Parts(s, a, Live(a), RetrySigs(a, b), true, items) == Parts(s, a, Live(a), RetrySigs(a, c), true, items)
  {
    var mk, nk := RetrySigs(a, b), RetrySigs(a, c);
    forall i: nat | i in x ensures mk[i] == nk[i] {
      assert c[i] == b[i];
      assert b[i].retried.value !in y;
    }
    forall d | d in items && IsItem(s, a, Live(a), d)
      ensures Part(s, a, Live(a), mk, true, d) == Part(s, a, Live(a), nk, true, d)
    {
      if d.isTask {
        RowsOfHeld(s, a, items, d.row);
      } else {
        var j := IndexOf(s.steps, d.row);
        forall i: nat | Selected(s.steps[j], a, Live(a), i) ensures mk[i] == nk[i] {
          ItemRowsHeld(s, a, d, i);
          assert i in LiveBelow(s.steps[j], a);
          RowsOfHeld(s, a, items, i);
        }
        BuildFrame(s.steps[j], a, Live(a), mk, a, Live(a), nk, true);
      }
    }
    PartsSame(s, a, Live(a), mk, a, Live(a), nk, true, items);
  }

  lemma {:induction false} RetryStep(s: Tree, a: seq<Task>, b: seq<Task>, c: seq<Task>, items: seq<Child>, k: nat,
                                     parts: seq<Canvas>, y: Canvas)
    requires WellFormed(s) && Sorted(items) && k < |items| && RetriedSoFar(s, a, b, items, k, parts)
    requires items[k] in items && RetriedRows(ItemRows(s, a, items[k]), b, c)
    requires y == Part(s, a, Live(a), RetrySigs(a, c), true, items[k])
    ensures RetriedSoFar(s, a, c, items, k + 1, parts + [y])
  {
    RetryItem(s, a, b, items, k, parts);
    RowsOfNext(s, a, items, k);
    ItemRowsWithin(s, a, items[k]);
    RetryBoth(RowsOf(s, a, items[..k]), ItemRows(s, a, items[k]), a, b, c);
    EarlierRetriesKept(s, RowsOf(s, a, items[..k]), ItemRows(s, a, items[k]), a, b, c, items[..k]);
    RetryPartsNext(s, a, RetrySigs(a, c), items, k);
  }

  lemma {:induction false} ItemRowsWithin(s: Tree, a: seq<Task>, c: Child)
    requires IsItem(s, a, Live(a), c)
    ensures forall i :: i in ItemRows(s, a, c) ==> i < |a|
  {
  }

  lemma {:induction false} AllLiveRows(s: Tree, a: seq<Task>)
    requires WellFormed(s)
    ensures RowsOf(s, a, ResultList(s, a, Live(a))) == LiveBelow(s, a)
  {
    var items := ResultList(s, a, Live(a));
    forall i: nat ensures i in RowsOf(s, a, items) <==> i in LiveBelow(s, a) {
      RowsOfHeld(s, a, items, i);
      if Selected(s, a, Live(a), i) { HolderIsItem(s, a, Live(a), i); }
    }
  }

  lemma {:induction false} RetryDone(s: Tree, a: seq<Task>, b: seq<Task>, parts: seq<Canvas>)
    requires WellFormed(s) && (Own(a, s.id, Live(a)) != [] || s.steps != [])
    requires var items := ResultList(s, a, Live(a)); RetriedSoFar(s, a, b, items, |items|, parts)
    ensures RetriedIn(s, a, b)
    ensures RetryPlan(s, a, b) == if s.parallel then Group(parts) else Chain(parts)
  {
    var items := ResultList(s, a, Live(a));
    assert items[..|items|] == items;
    AllLiveRows(s, a);
    RowsOfTree(s, a, b);
    RetryPlanIs(s, a, b);
  }

  lemma {:induction false} RetryPlanIs(s: Tree, a: seq<Task>, b: seq<Task>)
    requires |a| <= |b|
    ensures RetryPlan(s, a, b) == BuildChildren(s, a, Live(a), RetrySigs(a, b), true)
  {
  }

  /** Nothing to retry: no live task and no child step. */
  lemma {:induction false} RetryNothing(s: Tree, a: seq<Task>)
    requires Own(a, s.id, Live(a)) == [] && s.steps == []
    ensures RetriedIn(s, a, a) && RetryPlan(s, a, a) == Group([])
  {
    forall i | 0 <= i < |a| ensures !Replaced(a[i], s) {
      assert i !in Own(a, s.id, Live(a));
    }
    RetryPlanIs(s, a, a);
  }
}

/** A step added under a step of a workflow that is already in use. */
module Growing {
  import opened Rows
  import opened Status
  import opened Progress
  import opened Tables
  import opened Caching
  import opened Creating

  /** The new child step takes its place by position and creation time. */
  function InsertStep(kid: Tree, kids: seq<Tree>): (r: seq<Tree>)
    ensures |r| == |kids| + 1 && forall s :: s in r <==> s == kid || s in kids
  {
    if kids == [] then [kid]
    else if Before(StepItem(kids[|kids| - 1]), StepItem(kid)) then kids + [kid]
    else
      var r := InsertStep(kid, kids[..|kids| - 1]);
      assert kids == kids[..|kids| - 1] + [kids[|kids| - 1]];
      r + [kids[|kids| - 1]]
  }

  /** The tree with `kid` added under step `id`. */
  function Grow(t: Tree, id: StepId, kid: Tree): Tree {
    if t.id == id then t.(steps := InsertStep(kid, t.steps))
    else t.(steps := seq(|t.steps|, i requires 0 <= i < |t.steps| => Grow(t.steps[i], id, kid)))
  }

  lemma {:induction false} InsertItems(kid: Tree, kids: seq<Tree>)
    ensures StepItems(InsertStep(kid, kids)) == Insert(StepItem(kid), StepItems(kids))
  {
    if kids == [] {
      assert StepItems([kid]) == [StepItem(kid)];
    } else {
      var n := |kids| - 1;
      InsertItems(kid, kids[..n]);
      assert StepItems(kids)[..n] == StepItems(kids[..n]);
      if Before(StepItem(kids[n]), StepItem(kid)) {
        assert StepItems(kids + [kid]) == StepItems(kids) + [StepItem(kid)];
      } else {
        assert StepItems(InsertStep(kid, kids[..n]) + [kids[n]])
            == StepItems(InsertStep(kid, kids[..n])) + [StepItem(kids[n])];
      }
    }
  }

  lemma {:induction false} GrowElsewhere(t: Tree, id: StepId, kid: Tree)
    requires id !in Ids(t)
    ensures Grow(t, id, kid) == t
  {
    forall i | 0 <= i < |t.steps| ensures Grow(t.steps[i], id, kid) == t.steps[i] {
      GrowElsewhere(t.steps[i], id, kid);
    }
  }

  lemma {:induction false} GrowIds(t: Tree, id: StepId, kid: Tree)
    requires id in Ids(t)
    ensures Ids(Grow(t, id, kid)) == Ids(t) + Ids(kid)
  {
    if t.id == id {
      GrowIdsHere(t, kid);
    } else {
      forall i | 0 <= i < |t.steps|
        ensures Ids(Grow(t.steps[i], id, kid)) == Ids(t.steps[i]) + if id in Ids(t.steps[i]) then Ids(kid) else {}
      {
        if id in Ids(t.steps[i]) { GrowIds(t.steps[i], id, kid); } else { GrowElsewhere(t.steps[i], id, kid); }
      }
      GrowIdsBelow(t, id, kid);
    }
  }

  lemma {:induction false} GrowIdsBelow(t: Tree, id: StepId, kid: Tree)
    requires t.id != id && id in Ids(t)
    requires forall i :: 0 <= i < |t.steps| ==>
               Ids(Grow(t.steps[i], id, kid)) == Ids(t.steps[i]) + if id in Ids(t.steps[i]) then Ids(kid) else {}
    ensures Ids(Grow(t, id, kid)) == Ids(t) + Ids(kid)
  {
    var k :| 0 <= k < |t.steps| && id in Ids(t.steps[k]);
    KidsGrow(t, Grow(t, id, kid), Ids(kid), k);
  }

  lemma {:induction false} KidsGrow(t: Tree, g: Tree, more: set<StepId>, k: nat)
    requires g.id == t.id && |g.steps| == |t.steps| && k < |g.steps| && more <= Ids(g.steps[k])
    requires forall i :: 0 <= i < |t.steps| ==> Ids(t.steps[i]) <= Ids(g.steps[i]) <= Ids(t.steps[i]) + more
    ensures Ids(g) == Ids(t) + more
  {
    forall x | x in Ids(g) && x != t.id ensures x in Ids(t) + more {
      var i :| 0 <= i < |g.steps| && x in Ids(g.steps[i]);
      assert Ids(g.steps[i]) <= Ids(t.steps[i]) + more;
    }
    forall x | x in Ids(t) && x != t.id ensures x in Ids(g) {
      var i :| 0 <= i < |t.steps| && x in Ids(t.steps[i]);
      assert Ids(t.steps[i]) <= Ids(g.steps[i]);
    }
  }

  lemma {:induction false} GrowIdsHere(t: Tree, kid: Tree)
    ensures Ids(Grow(t, t.id, kid)) == Ids(t) + Ids(kid)
  {
    var g := Grow(t, t.id, kid);
    forall x ensures x in Ids(g) <==> x in Ids(t) + Ids(kid) {
      if x in Ids(g) && x != t.id {
        var i :| 0 <= i < |g.steps| && x in Ids(g.steps[i]);
        assert g.steps[i] in g.steps;
      }
      if i :| 0 <= i < |t.steps| && x in Ids(t.steps[i]) {
        assert t.steps[i] in g.steps;
        var j :| 0 <= j < |g.steps| && g.steps[j] == t.steps[i];
      }
      if x in Ids(kid) {
        assert kid in g.steps;
        var j :| 0 <= j < |g.steps| && g.steps[j] == kid;
      }
    }
  }

  /** What is found in the grown tree: the new step, a step above it, or a subtree
      that was there and does not hold its parent. */
  lemma {:induction false} GrowSub(s: Tree, t: Tree, id: StepId, kid: Tree)
    requires WellFormed(t) && id in Ids(t) && Sub(s, Grow(t, id, kid))
    ensures Sub(s, kid) || s.id in OnPath(t, id) || (Sub(s, t) && id !in Ids(s))
  {
    var g := Grow(t, id, kid);
    if s == g {
      assert PathTo(t, id)[0] == t.id;
    } else {
      var i :| 0 <= i < |g.steps| && Sub(s, g.steps[i]);
      if t.id == id {
        assert g.steps[i] in g.steps;
        if g.steps[i] != kid {
          var j :| 0 <= j < |t.steps| && t.steps[j] == g.steps[i];
          SubIds(s, t.steps[j]);
        }
      } else if id in Ids(t.steps[i]) {
        GrowSub(s, t.steps[i], id, kid);
        var k :| 0 <= k < |t.steps| && id in Ids(t.steps[k]) && PathTo(t, id) == [t.id] + PathTo(t.steps[k], id);
        assert k != i ==> Ids(t.steps[k]) !! Ids(t.steps[i]);
      } else {
        GrowElsewhere(t.steps[i], id, kid);
        SubIds(s, t.steps[i]);
      }
    }
  }

  lemma {:induction false} GrowWellFormed(t: Tree, id: StepId, kid: Tree)
    requires WellFormed(t) && WellFormed(kid) && id in Ids(t) && Ids(kid) !! Ids(t)
    ensures WellFormed(Grow(t, id, kid))
  {
    var g := Grow(t, id, kid);
    if t.id == id {
      InsertWellFormed(kid, t.steps);
      forall i | 0 <= i < |g.steps| ensures WellFormed(g.steps[i]) && t.id !in Ids(g.steps[i]) {
        assert g.steps[i] in g.steps;
      }
    } else {
      forall i | 0 <= i < |t.steps|
        ensures WellFormed(g.steps[i]) && t.id !in Ids(g.steps[i])
        ensures Ids(g.steps[i]) <= Ids(t.steps[i]) + if id in Ids(t.steps[i]) then Ids(kid) else {}
      {
        assert Ids(t.steps[i]) <= Ids(t);
        if id in Ids(t.steps[i]) {
          GrowWellFormed(t.steps[i], id, kid);
          GrowIds(t.steps[i], id, kid);
        } else {
          GrowElsewhere(t.steps[i], id, kid);
        }
      }
    }
  }

  ghost predicate Apart(ts: seq<Tree>) {
    forall i, j :: 0 <= i < |ts| && 0 <= j < |ts| && i != j ==> Ids(ts[i]) !! Ids(ts[j])
  }

  lemma {:induction false} InsertWellFormed(kid: Tree, kids: seq<Tree>)
    requires Apart(kids) && forall i :: 0 <= i < |kids| ==> Ids(kids[i]) !! Ids(kid)
    ensures Apart(InsertStep(kid, kids))
  {
    if kids != [] && !Before(StepItem(kids[|kids| - 1]), StepItem(kid)) {
      var n := |kids| - 1;
      InsertWellFormed(kid, kids[..n]);
      var r := InsertStep(kid, kids[..n]);
      forall i | 0 <= i < |r| ensures Ids(r[i]) !! Ids(kids[n]) {
        assert r[i] in r;
      }
    }
  }

  /** The rows with the new one form the grown tree. */
  lemma {:induction false} GrowRepresents(t: Tree, id: StepId, steps: seq<StepRow>, row: StepRow)
    requires WellFormed(t) && Represents(t, steps) && ChildOf(row, id)
    requires ChildSteps(steps + [row], |steps|) == []
    ensures Represents(Grow(t, id, Node(|steps|, row.pos, row.created, row.parallel, [])), steps + [row])
  {
    var b := steps + [row];
    var g := Grow(t, id, Node(|steps|, row.pos, row.created, row.parallel, []));
    if t.id == id {
      GrowHere(t, steps, row);
    } else {
      ChildStepsKept(steps, b, t.id);
      forall i | 0 <= i < |t.steps| ensures Represents(g.steps[i], b) && StepItem(g.steps[i]) == StepItem(t.steps[i]) {
        GrowRepresents(t.steps[i], id, steps, row);
      }
      assert StepItems(g.steps) == StepItems(t.steps);
    }
  }

  lemma {:induction false} GrowHere(t: Tree, steps: seq<StepRow>, row: StepRow)
    requires WellFormed(t) && Represents(t, steps) && ChildOf(row, t.id)
    requires ChildSteps(steps + [row], |steps|) == []
    ensures Represents(Grow(t, t.id, Node(|steps|, row.pos, row.created, row.parallel, [])), steps + [row])
  {
    var b := steps + [row];
    var kid := Node(|steps|, row.pos, row.created, row.parallel, []);
    InsertItems(kid, t.steps);
    NewChild(steps, row, t.id, kid);
    forall s | s in t.steps ensures Represents(s, b) {
      RepresentsKept(s, steps, b);
    }
    KidRepresented(kid, b);
    var g := Grow(t, t.id, kid);
    forall i | 0 <= i < |g.steps| ensures Represents(g.steps[i], b) {
      assert g.steps[i] in g.steps;
    }
  }

  lemma {:induction false} KidRepresented(kid: Tree, steps: seq<StepRow>)
    requires kid.steps == [] && kid.id < |steps| && ChildSteps(steps, kid.id) == []
    requires steps[kid.id].StepRow? && RowItem(steps, kid.id) == StepItem(kid) && steps[kid.id].parallel == kid.parallel
    ensures Represents(kid, steps)
  {
    assert StepItems(kid.steps) == [];
  }

  lemma {:induction false} NewChild(steps: seq<StepRow>, row: StepRow, id: StepId, kid: Tree)
    requires ChildOf(row, id) && StepItem(kid) == Child(row.pos, row.created, false, |steps|)
    ensures ChildSteps(steps + [row], id) == Insert(StepItem(kid), ChildSteps(steps, id))
  {
    var b := steps + [row];
    var xs := ChildSteps(steps, id);
    assert b[|steps|] == row;
    forall c ensures c in ChildSteps(b, id) <==> c == StepItem(kid) || c in xs {
      assert c.row < |steps| ==> b[c.row] == steps[c.row];
    }
    SortedUnique(ChildSteps(b, id), Insert(StepItem(kid), xs));
  }

  /** Adding a step and clearing the caches from its parent up keeps every cached
      value right. */
  lemma {:induction false} GrowCoherent(t: Tree, tasks: seq<Task>, status: Cached<State>, progress: Cached<real>,
                                        unseen: set<StepId>, id: StepId, kid: Tree)
    requires WellFormed(t) && id in Ids(t) && kid.steps == [] && kid.id !in Ids(t)
    requires Coherent(t, tasks, status, progress, unseen)
    ensures var path := OnPath(t, id);
            Coherent(Grow(t, id, kid), tasks, status - path, progress - path, unseen - path)
  {
    var path, g := OnPath(t, id), Grow(t, id, kid);
    GrowIds(t, id, kid);
    forall s | Sub(s, g) && Ids(s) !! (unseen - path)
      ensures s.id in status - path ==> (status - path)[s.id] == StatusOf(s, tasks)
      ensures s.id in progress - path ==> (progress - path)[s.id] == ProgressOf(s, tasks)
    {
      GrowSub(s, t, id, kid);
      if s.id !in path && s != kid {
        OffPath(s, t, id);
        assert Ids(s) !! unseen;
      }
    }
  }

  lemma {:induction false} NoChildYet(steps: seq<StepRow>, row: StepRow, id: StepId)
    requires ParentsFirst(steps) && ChildOf(row, id) && id < |steps|
    ensures ParentsFirst(steps + [row]) && ChildSteps(steps + [row], |steps|) == []
  {
    assert forall c :: c !in ChildSteps(steps + [row], |steps|);
    SortedUnique(ChildSteps(steps + [row], |steps|), []);
  }

  lemma {:induction false} KnownStep(t: Tree, id: StepId, steps: seq<StepRow>)
    requires Represents(t, steps) && id in Ids(t)
    ensures id < |steps|
  {
    var d := StepWithId(t, id);
    RepresentsSub(d, t, steps);
  }

  /** A new step under `id`, everything at once. */
  lemma {:induction false} StepAdded(t: Tree, id: StepId, steps: seq<StepRow>, row: StepRow)
    requires WellFormed(t) && Represents(t, steps) && ParentsFirst(steps)
    requires steps[t.id].parent == None && ChildOf(row, id) && id in Ids(t)
    ensures var g := Grow(t, id, Node(|steps|, row.pos, row.created, row.parallel, []));
            && |steps| !in Ids(t) && WellFormed(g) && Represents(g, steps + [row]) && ParentsFirst(steps + [row])
            && g.id == t.id && Ids(g) == Ids(t) + {|steps|}
  {
    var kid := Node(|steps|, row.pos, row.created, row.parallel, []);
    KnownStep(t, id, steps);
    if |steps| in Ids(t) { KnownStep(t, |steps|, steps); }
    NoChildYet(steps, row, id);
    assert Ids(kid) == {|steps|};
    GrowRepresents(t, id, steps, row);
    GrowWellFormed(t, id, kid);
    GrowIds(t, id, kid);
  }
}

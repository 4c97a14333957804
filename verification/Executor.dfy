/** The executor of a canvas: a chain starts a part once every earlier part has
    succeeded, so it stops at its first failure; a group starts every part. */
module Executor {
  import opened Rows
  import opened Canvas
  import opened Ordering

  /** The results reported so far, by task id: success or failure. */
  type Results = map<Uuid, bool>

  ghost predicate Succeeded(sigs: seq<Sig>, done: Results) {
    forall s :: s in sigs ==> s.taskId in done && done[s.taskId]
  }

  /** The executor may start `x` next. */
  ghost predicate Ready(c: Canvas, done: Results, x: Sig)
    decreases c, 1
  {
    match c
    case Leaf(sig) => sig == x && x.taskId !in done
    case Chain(parts) => ReadyInChain(parts, done, x)
    case Group(parts) => ReadyInGroup(parts, done, x)
  }

  ghost predicate ReadyInChain(cs: seq<Canvas>, done: Results, x: Sig)
    decreases cs, 0
  {
    cs != [] &&
    var rest, last := cs[..|cs| - 1], cs[|cs| - 1];
    ReadyInChain(rest, done, x) || (Succeeded(LeavesOf(rest), done) && Ready(last, done, x))
  }

  ghost predicate ReadyInGroup(cs: seq<Canvas>, done: Results, x: Sig)
    decreases cs, 0
  {
    cs != [] && (ReadyInGroup(cs[..|cs| - 1], done, x) || Ready(cs[|cs| - 1], done, x))
  }

  /** Everything that precedes `x` has succeeded. */
  ghost predicate Unblocked(c: Canvas, done: Results, x: Sig) {
    forall y :: Precedes(c, y, x) ==> y.taskId in done && done[y.taskId]
  }

  /******* The executor follows happens-before *******/

  /** A task can start iff it has not reported and everything before it succeeded. */
  lemma {:induction false} ReadyIff(c: Canvas, done: Results, x: Sig)
    requires Distinct(Leaves(c))
    ensures Ready(c, done, x) <==> x in Leaves(c) && x.taskId !in done && Unblocked(c, done, x)
    decreases c, 1
  {
    match c
    case Leaf(_) =>
    case Chain(parts) =>
      ReadyInChainIff(parts, done, x);
    case Group(parts) =>
      ReadyInGroupIff(parts, done, x);
  }

  lemma {:induction false} SplitLeaves(cs: seq<Canvas>, x: Sig)
    requires cs != [] && Distinct(LeavesOf(cs))
    ensures Distinct(LeavesOf(cs[..|cs| - 1])) && Distinct(Leaves(cs[|cs| - 1]))
    ensures x in LeavesOf(cs) <==> x in LeavesOf(cs[..|cs| - 1]) || x in Leaves(cs[|cs| - 1])
    ensures !(x in LeavesOf(cs[..|cs| - 1]) && x in Leaves(cs[|cs| - 1]))
  {
    DistinctConcat(LeavesOf(cs[..|cs| - 1]), Leaves(cs[|cs| - 1]));
  }

  lemma {:induction false} ReadyInChainIff(cs: seq<Canvas>, done: Results, x: Sig)
    requires Distinct(LeavesOf(cs))
    ensures ReadyInChain(cs, done, x)
            <==> x in LeavesOf(cs) && x.taskId !in done
                 && forall y :: Crosses(cs, y, x) || Inside(cs, y, x) ==> y.taskId in done && done[y.taskId]
    decreases cs, 0
  {
    if cs != [] {
      var rest, last := cs[..|cs| - 1], cs[|cs| - 1];
      SplitLeaves(cs, x);
      ReadyInChainIff(rest, done, x);
      ReadyIff(last, done, x);
      OnlyInside(rest, last, x);
      if x in Leaves(last) {
        assert forall y :: Crosses(cs, y, x) <==> y in LeavesOf(rest);
      }
    }
  }

  lemma {:induction false} ReadyInGroupIff(cs: seq<Canvas>, done: Results, x: Sig)
    requires Distinct(LeavesOf(cs))
    ensures ReadyInGroup(cs, done, x)
            <==> x in LeavesOf(cs) && x.taskId !in done
                 && forall y :: Inside(cs, y, x) ==> y.taskId in done && done[y.taskId]
    decreases cs, 0
  {
    if cs != [] {
      var rest, last := cs[..|cs| - 1], cs[|cs| - 1];
      SplitLeaves(cs, x);
      ReadyInGroupIff(rest, done, x);
      ReadyIff(last, done, x);
      OnlyInside(rest, last, x);
    }
  }

  /** Nothing is ordered before a signature that is not there. */
  lemma {:induction false} OnlyInside(rest: seq<Canvas>, last: Canvas, x: Sig)
    ensures x !in LeavesOf(rest) ==> forall y :: !Crosses(rest, y, x) && !Inside(rest, y, x)
    ensures x !in Leaves(last) ==> forall y :: !Precedes(last, y, x)
  {
    forall y | Crosses(rest, y, x) ensures x in LeavesOf(rest) { CrossesLeaves(rest, y, x); }
    forall y | Inside(rest, y, x) ensures x in LeavesOf(rest) { InsideLeaves(rest, y, x); }
    forall y | Precedes(last, y, x) ensures x in Leaves(last) { PrecedesLeaves(last, y, x); }
  }

  /******* The executor does not get stuck *******/

  /** Without a failure, some task can start until all have succeeded. */
  lemma {:induction false} SomeReady(c: Canvas, done: Results) returns (x: Sig)
    requires forall s :: s in Leaves(c) && s.taskId in done ==> done[s.taskId]
    requires !Succeeded(Leaves(c), done)
    ensures Ready(c, done, x)
    decreases c, 1
  {
    match c
    case Leaf(sig) => x := sig;
    case Chain(parts) => x := SomeReadyIn(parts, done);
    case Group(parts) => x := SomeReadyIn(parts, done);
  }

  lemma {:induction false} SomeReadyIn(cs: seq<Canvas>, done: Results) returns (x: Sig)
    requires forall s :: s in LeavesOf(cs) && s.taskId in done ==> done[s.taskId]
    requires !Succeeded(LeavesOf(cs), done)
    ensures ReadyInChain(cs, done, x) && ReadyInGroup(cs, done, x)
    decreases cs, 0
  {
    var rest, last := cs[..|cs| - 1], cs[|cs| - 1];
    if Succeeded(LeavesOf(rest), done) {
      x := SomeReady(last, done);
    } else {
      x := SomeReadyIn(rest, done);
    }
  }

  lemma {:induction false} ReadyIsLeaf(c: Canvas, done: Results, x: Sig)
    ensures Ready(c, done, x) ==> x in Leaves(c) && x.taskId !in done
    decreases c, 1
  {
    if !c.Leaf? { ReadyAreLeaves(c.parts, done, x); }
  }

  lemma {:induction false} ReadyAreLeaves(cs: seq<Canvas>, done: Results, x: Sig)
    ensures ReadyInChain(cs, done, x) || ReadyInGroup(cs, done, x) ==> x in LeavesOf(cs) && x.taskId !in done
    decreases cs, 0
  {
    if cs != [] {
      ReadyIsLeaf(cs[|cs| - 1], done, x);
      ReadyAreLeaves(cs[..|cs| - 1], done, x);
    }
  }

  /** While nothing before `x` has failed, `x` or something before it can start. */
  lemma {:induction false} ReadyBefore(c: Canvas, done: Results, x: Sig) returns (y: Sig)
    requires x in Leaves(c) && x.taskId !in done
    requires forall z :: Precedes(c, z, x) && z.taskId in done ==> done[z.taskId]
    ensures Ready(c, done, y) && (y == x || Precedes(c, y, x))
    decreases c, 1
  {
    match c
    case Leaf(sig) => y := x;
    case Chain(parts) => y := ReadyBeforeInChain(parts, done, x);
    case Group(parts) => y := ReadyBeforeInGroup(parts, done, x);
  }

  lemma {:induction false} ReadyBeforeInChain(cs: seq<Canvas>, done: Results, x: Sig) returns (y: Sig)
    requires x in LeavesOf(cs) && x.taskId !in done
    requires forall z :: (Crosses(cs, z, x) || Inside(cs, z, x)) && z.taskId in done ==> done[z.taskId]
    ensures ReadyInChain(cs, done, y) && (y == x || Crosses(cs, y, x) || Inside(cs, y, x))
    decreases cs, 0
  {
    var rest, last := cs[..|cs| - 1], cs[|cs| - 1];
    if x in LeavesOf(rest) {
      y := ReadyBeforeInChain(rest, done, x);
    } else if Succeeded(LeavesOf(rest), done) {
      y := ReadyBefore(last, done, x);
    } else {
      forall z | z in LeavesOf(rest) && z.taskId in done ensures done[z.taskId] { assert Crosses(cs, z, x); }
      y := SomeReadyIn(rest, done);
      ReadyAreLeaves(rest, done, y);
    }
  }

  lemma {:induction false} ReadyBeforeInGroup(cs: seq<Canvas>, done: Results, x: Sig) returns (y: Sig)
    requires x in LeavesOf(cs) && x.taskId !in done
    requires forall z :: Inside(cs, z, x) && z.taskId in done ==> done[z.taskId]
    ensures ReadyInGroup(cs, done, y) && (y == x || Inside(cs, y, x))
    decreases cs, 0
  {
    var rest, last := cs[..|cs| - 1], cs[|cs| - 1];
    if x in LeavesOf(rest) {
      y := ReadyBeforeInGroup(rest, done, x);
    } else {
      y := ReadyBefore(last, done, x);
    }
  }
}
